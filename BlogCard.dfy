/**
 * The post card of frontend/components/BlogCard.tsx: what it links to, whether
 * it is drawn as the featured card, and which tag badges it shows.
 */
module BlogCard {
  import opened Wrappers

  /** The card's `variant` prop. */
  datatype Variant = Default | Featured

  /** The card's props; `tags` and `variant` may be left out by the caller. */
  datatype CardProps = CardProps(id: string, title: string, excerpt: string,
                                 tags: Option<seq<string>>, variant: Option<Variant>)

  /** What the card shows: its link, title and excerpt, whether it uses the
      featured styling, the tag badges, and the number on the "+N more" badge
      when there is one. */
  datatype Card = Card(href: string, title: string, excerpt: string, featured: bool,
                       badges: seq<string>, more: Option<int>)

  /** The number of tag badges a card shows at most. */
  const MaxBadges: int := 3

  /** The tags with their default, the empty list. */
  function TagsOf(p: CardProps): seq<string>
  {
    if p.tags.Some? then p.tags.value else []
  }

  /** The variant with its default, `Default`. */
  function VariantOf(p: CardProps): Variant
  {
    if p.variant.Some? then p.variant.value else Default
  }

  /** The card rendered from its props. */
  function Render(p: CardProps): Card
  {
    var tags := TagsOf(p);
    var shown := if |tags| <= MaxBadges then tags else tags[..MaxBadges];
    Card("/posts/" + p.id, p.title, p.excerpt, VariantOf(p) == Featured, shown,
         if |tags| > MaxBadges then Some(|tags| - MaxBadges) else None)
  }

  /** At most three badges are shown, the first tags in order; a "+N more"
      badge appears exactly when there are more than three tags, and the shown
      badges plus N account for every tag. */
  lemma BadgesAccountForAllTags(p: CardProps)
    ensures var c := Render(p); var tags := TagsOf(p);
      && |c.badges| <= MaxBadges
      && |c.badges| <= |tags| && c.badges == tags[..|c.badges|]
      && (|tags| <= MaxBadges ==> c.badges == tags)
      && (c.more.Some? <==> |tags| > MaxBadges)
      && (c.more.Some? ==> c.more.value >= 1 && |c.badges| + c.more.value == |tags|)
      && (c.more.None? ==> |c.badges| == |tags|)
  {
  }

  /** A card given no tags shows no badge at all; one given no variant is not
      featured; a card is featured exactly when its variant is `Featured`. */
  lemma Defaults(p: CardProps)
    ensures p.tags.None? ==> Render(p).badges == [] && Render(p).more.None?
    ensures p.variant.None? ==> !Render(p).featured
    ensures Render(p).featured <==> p.variant == Some(Featured)
  {
  }

  /** The card links to `/posts/` followed by the post id, and different ids
      give different links. */
  lemma LinkTarget(p: CardProps, q: CardProps)
    ensures |Render(p).href| == 7 + |p.id| && Render(p).href[7..] == p.id
    ensures Render(p).href == Render(q).href <==> p.id == q.id
  {
    assert Render(p).href[7..] == p.id;
    assert Render(q).href[7..] == q.id;
  }
}
