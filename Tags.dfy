/**
 * The tag normaliser shared by both editors: a comma-separated string is split
 * on ',', every piece is trimmed and empty pieces are dropped, in order.
 */
module Tags {
  import opened Strings
  import opened Seqs

  /** A stored tag: not empty, no white space at either end. */
  predicate IsCleanTag(t: string)
  {
    t != "" && !IsSpace(t[0]) && !IsSpace(t[|t| - 1])
  }

  /** Each piece trimmed, in order (`.map((tag) => tag.trim())`). */
  function TrimAll(pieces: seq<string>): (r: seq<string>)
    ensures |r| == |pieces|
    ensures forall i :: 0 <= i < |pieces| ==> r[i] == Trim(pieces[i])
    decreases |pieces|
  {
    if |pieces| == 0 then [] else [Trim(pieces[0])] + TrimAll(pieces[1..])
  }

  /** `.map((tag) => tag.trim()).filter(Boolean)`: the trimmed pieces that are
      not empty, in their original order. Every element is a clean tag. */
  function CleanTags(pieces: seq<string>): (tags: seq<string>)
    ensures forall i :: 0 <= i < |tags| ==> IsCleanTag(tags[i])
    decreases |pieces|
  {
    if |pieces| == 0 then []
    else
      var t := Trim(pieces[0]);
      if t == "" then CleanTags(pieces[1..]) else [t] + CleanTags(pieces[1..])
  }

  /** A tag is kept exactly when it is a non-empty trimmed piece. */
  lemma {:induction false} CleanTagsMembers(pieces: seq<string>)
    ensures forall t :: t in CleanTags(pieces) <==> t != "" && t in TrimAll(pieces)
    decreases |pieces|
  {
    if |pieces| > 0 {
      CleanTagsMembers(pieces[1..]);
      TrimAllCons(pieces);
    }
  }

  /** A trimmed piece is the first piece trimmed or one of the rest trimmed. */
  lemma TrimAllCons(pieces: seq<string>)
    requires |pieces| > 0
    ensures forall t :: t in TrimAll(pieces) <==> t == Trim(pieces[0]) || t in TrimAll(pieces[1..])
  {
  }

  /** The kept tags are in the order of the pieces they come from. */
  lemma {:induction false} CleanTagsInOrder(pieces: seq<string>)
    ensures IsSubsequence(CleanTags(pieces), TrimAll(pieces))
    decreases |pieces|
  {
    if |pieces| > 0 {
      CleanTagsInOrder(pieces[1..]);
      var t := Trim(pieces[0]);
      var all := TrimAll(pieces);
      assert all[1..] == TrimAll(pieces[1..]);
      var tags := CleanTags(pieces);
      if t != "" {
        assert tags[0] == all[0] && tags[1..] == CleanTags(pieces[1..]);
      }
    }
  }

  /** `filter(Boolean)` drops only the empty pieces and keeps duplicates: the
      kept tags are the trimmed pieces, copy for copy, without the empty ones. */
  lemma {:induction false} CleanTagsMultiset(pieces: seq<string>)
    ensures multiset(CleanTags(pieces)) == multiset(TrimAll(pieces))["" := 0]
    ensures |CleanTags(pieces)| == |pieces| - multiset(TrimAll(pieces))[""]
    decreases |pieces|
  {
    if |pieces| > 0 {
      var t := Trim(pieces[0]);
      var rest := pieces[1..];
      CleanTagsMultiset(rest);
      CleanTagsUnfold(pieces);
      DropEmptyCons(t, TrimAll(rest));
    }
  }

  /** Removing the empty strings from a multiset commutes with adding a
      non-empty one, and absorbs an added empty one. */
  lemma DropEmptyCons(t: string, rest: seq<string>)
    ensures multiset([t] + rest)["" := 0] ==
      if t == "" then multiset(rest)["" := 0] else multiset{t} + multiset(rest)["" := 0]
    ensures multiset([t] + rest)[""] == multiset(rest)[""] + (if t == "" then 1 else 0)
  {
    assert multiset([t] + rest) == multiset{t} + multiset(rest);
  }

  /** `tags.split(',').map(trim).filter(Boolean)` on the editor's tags string. */
  function ParseTagString(text: string): (tags: seq<string>)
    ensures forall i :: 0 <= i < |tags| ==> IsCleanTag(tags[i]) && ',' !in tags[i]
  {
    var pieces := Split(text, ',');
    var tags := CleanTags(pieces);
    assert forall i :: 0 <= i < |tags| ==> ',' !in tags[i] by {
      forall i | 0 <= i < |tags| ensures ',' !in tags[i] {
        CleanTagsMembers(pieces);
        assert tags[i] in TrimAll(pieces);
        var k :| 0 <= k < |pieces| && TrimAll(pieces)[k] == tags[i];
        TrimKeepsOut(pieces[k], ',');
      }
    }
    tags
  }

  /** Trimming never brings in a character that was not there. */
  lemma TrimKeepsOut(s: string, c: char)
    requires c !in s
    ensures c !in Trim(s)
  {
    var i := LeadingSpace(s);
    assert forall d :: d in s[i..i + |Trim(s)|] ==> d in s;
  }

  /** A list of tags that are already clean passes through unchanged. */
  lemma {:induction false} CleanTagsOfClean(tags: seq<string>)
    requires forall i :: 0 <= i < |tags| ==> IsCleanTag(tags[i])
    ensures CleanTags(tags) == tags
    decreases |tags|
  {
    if |tags| > 0 {
      TrimOfClean(tags[0]);
      CleanTagsOfClean(tags[1..]);
      assert tags == [tags[0]] + tags[1..];
    }
  }

  lemma TrimOfClean(t: string)
    requires IsCleanTag(t)
    ensures Trim(t) == t
  {
    TrimOfUnpadded(t);
  }

  /** Round trip: writing clean, comma-free tags as one comma-joined string and
      normalising it gives the same tags back. */
  lemma ParseJoinedTags(tags: seq<string>)
    requires forall i :: 0 <= i < |tags| ==> IsCleanTag(tags[i]) && ',' !in tags[i]
    ensures ParseTagString(Join(tags, ',')) == tags
  {
    if |tags| == 0 {
      assert Split("", ',') == [""];
      assert Trim("") == "";
      assert TrimAll([""]) == [""];
    } else {
      SplitJoin(tags, ',');
      CleanTagsOfClean(tags);
    }
  }

  /** The shape of the input `"tech, programming , "`: two clean,
      comma-free tags written with a space after the first comma, spaces
      around the second tag and a trailing blank piece come back as exactly
      those two tags. */
  lemma ParseExample(a: string, b: string)
    requires IsCleanTag(a) && IsCleanTag(b) && ',' !in a && ',' !in b
    ensures ParseTagString(a + ", " + b + " , ") == [a, b]
  {
    var middle := " " + b + " ";
    ExampleSplit(a, b);
    TrimOfClean(a);
    TrimPadded(b);
    TrimBlank();
    ExampleClean(a, middle, " ");
  }

  /** The input `"tech, programming , "` gives `["tech", "programming"]`. */
  lemma ParseExampleInstance()
    ensures ParseTagString("tech" + ", " + "programming" + " , ") == ["tech", "programming"]
  {
    ParseExample("tech", "programming");
  }

  lemma ExampleSplit(a: string, b: string)
    requires ',' !in a && ',' !in b
    ensures Split(a + ", " + b + " , ", ',') == [a] + ([" " + b + " "] + [" "])
  {
    var middle := " " + b + " ";
    assert ',' !in middle by {
      assert forall c :: c in middle ==> c == ' ' || c in b;
    }
    var rest := middle + [','] + " ";
    assert a + ", " + b + " , " == a + [','] + rest;
    SplitFirstPiece(a, ',', rest);
    SplitFirstPiece(middle, ',', " ");
    SplitSepFree(" ", ',');
  }

  /** A clean tag with one space on either side trims back to itself. */
  lemma TrimPadded(b: string)
    requires IsCleanTag(b)
    ensures Trim(" " + b + " ") == b
  {
    var t := " " + b + " ";
    assert t[1..] == b + " ";
    assert LeadingSpace(t[1..]) == 0;
    assert LeadingSpace(t) == 1;
    assert t[..|t| - 1] == " " + b;
    assert TextEnd(t[..|t| - 1]) == |b| + 1;
    assert TextEnd(t) == |b| + 1;
    assert t[1..|b| + 1] == b;
  }

  lemma TrimBlank()
    ensures Trim(" ") == ""
  {
    assert IsSpace(" "[0]);
    assert LeadingSpace(" "[1..]) == 0;
  }

  /** Cleaning three pieces of which the last trims to nothing. */
  lemma ExampleClean(a: string, b: string, c: string)
    requires Trim(a) != "" && Trim(b) != "" && Trim(c) == ""
    ensures CleanTags([a] + ([b] + [c])) == [Trim(a)] + [Trim(b)]
  {
    ExampleCleanTail(b, c);
    CleanTagsCons(a, [b] + [c]);
  }

  lemma ExampleCleanTail(b: string, c: string)
    requires Trim(b) != "" && Trim(c) == ""
    ensures CleanTags([b] + [c]) == [Trim(b)]
  {
    CleanTagsCons(c, []);
    assert [c] == [c] + [];
    CleanTagsCons(b, [c]);
  }

  /** One step of `CleanTags`, on a non-empty list of pieces. */
  lemma CleanTagsUnfold(pieces: seq<string>)
    requires |pieces| > 0
    ensures CleanTags(pieces) ==
      if Trim(pieces[0]) == "" then CleanTags(pieces[1..]) else [Trim(pieces[0])] + CleanTags(pieces[1..])
  {
  }

  /** One step of `CleanTags`. */
  lemma CleanTagsCons(p: string, rest: seq<string>)
    ensures CleanTags([p] + rest) == if Trim(p) == "" then CleanTags(rest) else [Trim(p)] + CleanTags(rest)
  {
    assert ([p] + rest)[1..] == rest;
  }

}
