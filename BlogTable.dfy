/**
 * The `blogs` table as the backend's queries see it. A query is a chain of
 * `.eq(column, value)` filters, read as their conjunction; `.select()` returns
 * the matching rows, `.update(...)` and `.delete()` act on exactly the matching
 * rows, `.insert(...)` adds a row under the next id, and `.single()` succeeds
 * only when exactly one row matches.
 */
module BlogTable {
  import opened Wrappers
  import opened Seqs

  /** A row of `blogs`. Times are integers; `updatedAt` is `None` until a write
      sets it (the insert routes do not). */
  datatype Row = Row(
    id: int,
    title: string,
    content: string,
    tags: seq<string>,
    status: string,
    userId: string,
    createdAt: int,
    updatedAt: Option<int>)

  /** The rows by id, and the id the store assigns next. */
  datatype Table = Table(rows: map<int, Row>, nextId: int)

  /** Every row is stored under its own id, and ids already handed out lie
      below `nextId`. */
  ghost predicate WellFormed(t: Table)
  {
    t.nextId >= 1 && forall k :: k in t.rows ==> 1 <= k < t.nextId && t.rows[k].id == k
  }

  /** One `.eq(column, value)` of a query. */
  datatype Eq = IdIs(id: int) | UserIs(user: string) | StatusIs(status: string)

  predicate MatchesEq(r: Row, e: Eq)
  {
    match e
    case IdIs(i) => r.id == i
    case UserIs(u) => r.userId == u
    case StatusIs(s) => r.status == s
  }

  /** A row passes a chain of `.eq` filters when it passes every one of them. */
  predicate MatchesAll(r: Row, eqs: seq<Eq>)
  {
    forall i :: 0 <= i < |eqs| ==> MatchesEq(r, eqs[i])
  }

  /** The rows whose ids lie in `lo..hi-1`, in ascending id order. */
  function Scan(rows: map<int, Row>, lo: int, hi: int): (r: seq<Row>)
    requires forall k :: k in rows ==> rows[k].id == k
    ensures forall i :: 0 <= i < |r| ==> r[i].id in rows && rows[r[i].id] == r[i] && lo <= r[i].id < hi
    ensures forall k :: k in rows && lo <= k < hi ==> rows[k] in r
    ensures forall i, j :: 0 <= i < j < |r| ==> r[i].id < r[j].id
    decreases hi - lo
  {
    if lo >= hi then []
    else
      var rest := Scan(rows, lo + 1, hi);
      if lo in rows then
        ScanStep(rows, lo, hi, rest);
        [rows[lo]] + rest
      else rest
  }

  /** The row stored under `lo`, put in front of the rows with ids in
      `lo+1..hi-1`, gives the rows with ids in `lo..hi-1`. */
  lemma ScanStep(rows: map<int, Row>, lo: int, hi: int, rest: seq<Row>)
    requires forall k :: k in rows ==> rows[k].id == k
    requires lo < hi && lo in rows
    requires forall i :: 0 <= i < |rest| ==> rest[i].id in rows && rows[rest[i].id] == rest[i] && lo + 1 <= rest[i].id < hi
    requires forall k :: k in rows && lo + 1 <= k < hi ==> rows[k] in rest
    requires forall i, j :: 0 <= i < j < |rest| ==> rest[i].id < rest[j].id
    ensures var r := [rows[lo]] + rest;
      && (forall i :: 0 <= i < |r| ==> r[i].id in rows && rows[r[i].id] == r[i] && lo <= r[i].id < hi)
      && (forall k :: k in rows && lo <= k < hi ==> rows[k] in r)
      && (forall i, j :: 0 <= i < j < |r| ==> r[i].id < r[j].id)
  {
    var r := [rows[lo]] + rest;
    assert forall i :: 1 <= i < |r| ==> r[i] == rest[i - 1];
  }

  /** All rows of the table. The queries ask for no `.order`, so the store's
      row order is unspecified; the model reads the rows in ascending id order. */
  function AllRows(t: Table): (r: seq<Row>)
    requires WellFormed(t)
    ensures forall i :: 0 <= i < |r| ==> r[i].id in t.rows && t.rows[r[i].id] == r[i]
    ensures forall k :: k in t.rows ==> t.rows[k] in r
    ensures forall i, j :: 0 <= i < j < |r| ==> r[i].id < r[j].id
  {
    Scan(t.rows, 1, t.nextId)
  }

  /** The rows of `s` that pass the filters, in the order of `s`. */
  function Where(s: seq<Row>, eqs: seq<Eq>): (r: seq<Row>)
    ensures forall x :: x in r <==> x in s && MatchesAll(x, eqs)
    ensures IsSubsequence(r, s)
    ensures IdsIncrease(s) ==> IdsIncrease(r)
    decreases |s|
  {
    if |s| == 0 then []
    else
      var rest := Where(s[1..], eqs);
      if MatchesAll(s[0], eqs) then
        assert ([s[0]] + rest)[1..] == rest;
        HeadBelowRest(s, rest);
        [s[0]] + rest
      else
        rest
  }

  /** When ids increase along `s`, its first id lies below that of every row
      drawn from the rest of `s`. */
  lemma HeadBelowRest(s: seq<Row>, rest: seq<Row>)
    requires |s| > 0
    requires forall x :: x in rest ==> x in s[1..]
    ensures IdsIncrease(s) ==> forall j :: 0 <= j < |rest| ==> s[0].id < rest[j].id
  {
    forall j | 0 <= j < |rest| && IdsIncrease(s)
      ensures s[0].id < rest[j].id
    {
      assert rest[j] in s[1..];
      var k :| 0 <= k < |s| - 1 && s[1..][k] == rest[j];
      assert s[k + 1] == rest[j];
    }
  }

  /** Ids strictly increase along `s`, so no row appears twice. */
  predicate IdsIncrease(s: seq<Row>)
  {
    forall i, j :: 0 <= i < j < |s| ==> s[i].id < s[j].id
  }

  /** `.from('blogs').select().eq(...)...`: a row is returned exactly when it is
      in the table and passes every filter. */
  function Select(t: Table, eqs: seq<Eq>): (r: seq<Row>)
    requires WellFormed(t)
    ensures forall x :: x in r ==> x.id in t.rows && t.rows[x.id] == x && MatchesAll(x, eqs)
    ensures forall k :: k in t.rows ==> (t.rows[k] in r <==> MatchesAll(t.rows[k], eqs))
    ensures IdsIncrease(r)
  {
    Where(AllRows(t), eqs)
  }

  /** `.single()`: the one row of the result, or an error (`None`) when there
      are none or several. */
  function Single(s: seq<Row>): Option<Row>
  {
    if |s| == 1 then Some(s[0]) else None
  }

  /** `.eq('id', id)` followed by other filters and `.single()` finds the row
      stored under `id` exactly when that row passes the other filters. */
  lemma SelectById(t: Table, id: int, eqs: seq<Eq>)
    requires WellFormed(t)
    requires |eqs| >= 1 && eqs[0] == IdIs(id)
    ensures Single(Select(t, eqs)).Some? <==> id in t.rows && MatchesAll(t.rows[id], eqs)
    ensures Single(Select(t, eqs)).Some? ==> Single(Select(t, eqs)).value == t.rows[id]
  {
    var r := Select(t, eqs);
    forall i | 0 <= i < |r|
      ensures r[i].id == id && id in t.rows && t.rows[id] == r[i]
    {
      assert r[i] in r;
      assert MatchesEq(r[i], eqs[0]);
    }
    FirstIdsDiffer(r);
    assert |r| <= 1;
    if id in t.rows && MatchesAll(t.rows[id], eqs) {
      assert t.rows[id] in r;
    }
  }

  lemma FirstIdsDiffer(r: seq<Row>)
    requires IdsIncrease(r)
    ensures |r| >= 2 ==> r[0].id != r[1].id
  {
  }

  // ---------------------------------------------------------------------------
  // Writes
  // ---------------------------------------------------------------------------

  /** The columns an `.update({...})` writes. */
  datatype Patch = Patch(title: string, content: string, tags: seq<string>, status: string, updatedAt: int)

  function Apply(r: Row, p: Patch): Row
  {
    r.(title := p.title, content := p.content, tags := p.tags, status := p.status,
       updatedAt := Some(p.updatedAt))
  }

  /** `.update(p).eq(...)...`: every matching row is patched, no other row changes. */
  function UpdateWhere(t: Table, eqs: seq<Eq>, p: Patch): Table
  {
    Table(map k | k in t.rows :: if MatchesAll(t.rows[k], eqs) then Apply(t.rows[k], p) else t.rows[k],
          t.nextId)
  }

  /** `.delete().eq(...)...`: the matching rows are removed, the others kept. */
  function DeleteWhere(t: Table, eqs: seq<Eq>): Table
  {
    Table(map k | k in t.rows && !MatchesAll(t.rows[k], eqs) :: t.rows[k], t.nextId)
  }

  /** `.insert([row]).select()`: the row is stored under the next id, which is
      then used up. */
  function Insert(t: Table, r: Row): Table
  {
    Table(t.rows[t.nextId := r.(id := t.nextId)], t.nextId + 1)
  }

  /** The filter of every owner-scoped route: `.eq('id', id).eq('user_id', owner)`. */
  function OwnedBy(id: int, owner: string): (eqs: seq<Eq>)
    ensures |eqs| >= 1 && eqs[0] == IdIs(id)
    ensures forall r :: MatchesAll(r, eqs) <==> r.id == id && r.userId == owner
  {
    var eqs := [IdIs(id), UserIs(owner)];
    assert forall r :: MatchesAll(r, eqs) <==> MatchesEq(r, eqs[0]) && MatchesEq(r, eqs[1]);
    eqs
  }

  /** `.eq('user_id', owner)`. */
  function OwnerIs(owner: string): (eqs: seq<Eq>)
    ensures forall r :: MatchesAll(r, eqs) <==> r.userId == owner
  {
    var eqs := [UserIs(owner)];
    assert forall r :: MatchesAll(r, eqs) <==> MatchesEq(r, eqs[0]);
    eqs
  }

  /** `.eq('user_id', owner).eq('status', status)`. */
  function OwnerAndStatus(owner: string, status: string): (eqs: seq<Eq>)
    ensures forall r :: MatchesAll(r, eqs) <==> r.userId == owner && r.status == status
  {
    var eqs := [UserIs(owner), StatusIs(status)];
    assert forall r :: MatchesAll(r, eqs) <==> MatchesEq(r, eqs[0]) && MatchesEq(r, eqs[1]);
    eqs
  }

  /** `.eq('status', status)`. */
  function StatusOf(status: string): (eqs: seq<Eq>)
    ensures forall r :: MatchesAll(r, eqs) <==> r.status == status
  {
    var eqs := [StatusIs(status)];
    assert forall r :: MatchesAll(r, eqs) <==> MatchesEq(r, eqs[0]);
    eqs
  }

  /** `.eq('id', id).eq('status', status)`. */
  function IdAndStatus(id: int, status: string): (eqs: seq<Eq>)
    ensures |eqs| >= 1 && eqs[0] == IdIs(id)
    ensures forall r :: MatchesAll(r, eqs) <==> r.id == id && r.status == status
  {
    var eqs := [IdIs(id), StatusIs(status)];
    assert forall r :: MatchesAll(r, eqs) <==> MatchesEq(r, eqs[0]) && MatchesEq(r, eqs[1]);
    eqs
  }

  /** Whether the row stored under `id` belongs to `owner`. */
  predicate Owns(t: Table, id: int, owner: string)
  {
    id in t.rows && t.rows[id].userId == owner
  }

  /** An owner-scoped update patches the owner's row with that id and nothing
      else; when there is no such row the table is unchanged. */
  lemma UpdateOwned(t: Table, id: int, owner: string, p: Patch)
    requires WellFormed(t)
    ensures var u := UpdateWhere(t, OwnedBy(id, owner), p);
      && WellFormed(u)
      && u.nextId == t.nextId
      && u.rows.Keys == t.rows.Keys
      && (forall k :: k in t.rows && k != id ==> u.rows[k] == t.rows[k])
      && (Owns(t, id, owner) ==> u.rows[id] == Apply(t.rows[id], p))
      && (!Owns(t, id, owner) ==> u == t)
  {
    var eqs := OwnedBy(id, owner);
    var u := UpdateWhere(t, eqs, p);
    assert forall k :: k in t.rows ==> (MatchesAll(t.rows[k], eqs) <==> k == id && Owns(t, id, owner));
    if !Owns(t, id, owner) {
      assert u.rows == t.rows;
    }
  }

  /** An owner-scoped delete removes the owner's row with that id and nothing
      else. */
  lemma DeleteOwned(t: Table, id: int, owner: string)
    requires WellFormed(t)
    ensures var d := DeleteWhere(t, OwnedBy(id, owner));
      && WellFormed(d)
      && d.nextId == t.nextId
      && d.rows == if Owns(t, id, owner) then t.rows - {id} else t.rows
  {
    var eqs := OwnedBy(id, owner);
    var d := DeleteWhere(t, eqs);
    assert forall k :: k in t.rows ==> (MatchesAll(t.rows[k], eqs) <==> k == id && Owns(t, id, owner));
    assert d.rows.Keys == if Owns(t, id, owner) then t.rows.Keys - {id} else t.rows.Keys;
  }

  /** Deleting twice is deleting once. */
  lemma DeleteIdempotent(t: Table, eqs: seq<Eq>)
    ensures DeleteWhere(DeleteWhere(t, eqs), eqs) == DeleteWhere(t, eqs)
  {
    var d := DeleteWhere(t, eqs);
    assert DeleteWhere(d, eqs).rows == d.rows;
  }

  /** An insert adds exactly one row, under the id that was next, and keeps the
      table well formed; every existing row stays as it was. */
  lemma InsertAddsOne(t: Table, r: Row)
    requires WellFormed(t)
    ensures var n := Insert(t, r);
      && WellFormed(n)
      && n.rows.Keys == t.rows.Keys + {t.nextId}
      && t.nextId !in t.rows
      && n.rows[t.nextId] == r.(id := t.nextId)
      && (forall k :: k in t.rows ==> n.rows[k] == t.rows[k])
  {
  }

  // ---------------------------------------------------------------------------
  // .order('created_at', { ascending: false })
  // ---------------------------------------------------------------------------

  /** Newest first: `created_at` never increases along `s`. */
  predicate NewestFirst(s: seq<Row>)
  {
    forall i, j :: 0 <= i < j < |s| ==> s[i].createdAt >= s[j].createdAt
  }

  /** `x` put into a newest-first sequence, before the first row that is not
      newer than it. */
  function InsertNewestFirst(x: Row, s: seq<Row>): (r: seq<Row>)
    requires NewestFirst(s)
    ensures NewestFirst(r)
    ensures multiset(r) == multiset(s) + multiset{x}
    ensures |r| == |s| + 1
    ensures r[0] == if |s| == 0 || x.createdAt >= s[0].createdAt then x else s[0]
    decreases |s|
  {
    if |s| == 0 || x.createdAt >= s[0].createdAt then
      PrependNewest(x, s);
      [x] + s
    else
      var rest := InsertNewestFirst(x, s[1..]);
      assert s == [s[0]] + s[1..];
      assert multiset(s) == multiset{s[0]} + multiset(s[1..]);
      PrependNewest(s[0], rest);
      [s[0]] + rest
  }

  /** A row at least as new as the head of a newest-first sequence can go in
      front of it. */
  lemma PrependNewest(y: Row, s: seq<Row>)
    requires NewestFirst(s)
    requires |s| == 0 || s[0].createdAt <= y.createdAt
    ensures NewestFirst([y] + s)
    ensures multiset([y] + s) == multiset{y} + multiset(s)
  {
    var r := [y] + s;
    assert forall i :: 1 <= i < |r| ==> r[i] == s[i - 1];
  }

  /** The rows of `s` ordered newest first (rows with the same `created_at`
      keep their relative order). */
  function SortNewestFirst(s: seq<Row>): (r: seq<Row>)
    ensures NewestFirst(r)
    ensures multiset(r) == multiset(s)
    decreases |s|
  {
    if |s| == 0 then []
    else
      assert s == [s[0]] + s[1..];
      InsertNewestFirst(s[0], SortNewestFirst(s[1..]))
  }

  /** Sorting keeps exactly the rows it was given. */
  lemma SortKeepsRows(s: seq<Row>)
    ensures forall x :: x in SortNewestFirst(s) <==> x in s
  {
    var sorted := SortNewestFirst(s);
    forall x
      ensures x in sorted <==> x in s
    {
      assert x in sorted <==> x in multiset(sorted);
      assert x in s <==> x in multiset(s);
    }
  }

  /** No row occurs twice in `s`. */
  predicate NoRepeats(s: seq<Row>)
  {
    forall i, j :: 0 <= i < j < |s| ==> s[i] != s[j]
  }

  /** A row found at two positions is counted at least twice. */
  lemma RepeatCounts(s: seq<Row>, i: int, j: int)
    requires 0 <= i < j < |s| && s[i] == s[j]
    ensures multiset(s)[s[i]] >= 2
  {
    assert s == s[..j] + s[j..];
    assert s[i] in s[..j];
    assert s[j] in s[j..];
  }

  /** When ids increase, every row is counted at most once. */
  lemma {:induction false} IncreasingCountsOnce(s: seq<Row>)
    requires IdsIncrease(s)
    ensures forall x :: multiset(s)[x] <= 1
    decreases |s|
  {
    if |s| > 0 {
      IncreasingCountsOnce(s[1..]);
      assert s == [s[0]] + s[1..];
      assert s[0] !in s[1..] by {
        forall k | 0 <= k < |s| - 1 ensures s[1..][k] != s[0] {
          assert s[k + 1].id > s[0].id;
        }
      }
    }
  }

  /** Sorting rows with increasing ids newest first repeats none of them. */
  lemma SortedNoRepeats(s: seq<Row>)
    requires IdsIncrease(s)
    ensures NoRepeats(SortNewestFirst(s))
  {
    var r := SortNewestFirst(s);
    forall i, j | 0 <= i < j < |r|
      ensures r[i] != r[j]
    {
      if r[i] == r[j] {
        RepeatCounts(r, i, j);
        IncreasingCountsOnce(s);
        assert false;
      }
    }
  }
}
