/**
 The card data model and the tag badges a card renders: the closed tag-type
 enum, the tag and item records, the tag-type to colour switch, and the three
 Tailwind class strings each badge derives from that colour.
 */
module Cards {
  import opened Options

  /** The closed tag-type enum, in declaration order (WARNING = 0,
      VERSION = 1, BUG = 2). */
  datatype TagType = Warning | Version | Bug

  datatype Tag = Tag(id: string, name: string, tagType: TagType)

  /** A task card; `createdAt` is milliseconds since the epoch. */
  datatype Item = Item(id: string, name: string, createdAt: int, tags: seq<Tag>)

  /** The colours the switch can produce. */
  const Palette: seq<string> := ["red", "yellow", "teal"]

  /** The badge colour of a tag type: BUG and WARNING have their own cases,
      everything else falls through to the initial value `teal`. */
  function TagColour(t: TagType): (c: string)
    ensures c in Palette
    ensures c == "red" <==> t == Bug
    ensures c == "yellow" <==> t == Warning
    ensures c == "teal" <==> t == Version
  {
    var colour := "teal";
    match t
    case Bug => "red"
    case Warning => "yellow"
    case _ => colour
  }

  /** The tag type a colour stands for, if any: the inverse of `TagColour`. */
  function TypeOfColour(c: string): (t: Option<TagType>)
    ensures t.Some? <==> c in Palette
  {
    if c == "red" then Some(Bug)
    else if c == "yellow" then Some(Warning)
    else if c == "teal" then Some(Version)
    else None
  }

  /** No two tag types share a colour, so the colour alone identifies the type. */
  lemma ColourRoundTrip(t: TagType)
    ensures TypeOfColour(TagColour(t)) == Some(t)
  {
  }

  /** A Tailwind colour utility such as `bg-red-50` or `text-teal-400`. */
  function ColourUtility(utility: string, colour: string, shade: string): string {
    utility + "-" + colour + "-" + shade
  }

  /** A class list: a leading utility followed by the fixed layout classes. */
  function ClassList(lead: string, layout: string): string {
    lead + " " + layout
  }

  const BadgeLayout := "h-4 flex justify-between items-center px-2 rounded mx-1"
  const DotLayout := "w-2 h-2 mr-1"
  const CaptionLayout := "text-xxs font-medium"

  /** What one tag renders as: the React key, the class list of the badge,
      of its dot icon and of its caption, and the caption text. */
  datatype Badge = Badge(key: string, badgeClass: string, dotClass: string, captionClass: string, caption: string)

  /** The badge markup for one tag; each class list leads with the colour utility. */
  function BadgeFor(tag: Tag): Badge {
    var c := TagColour(tag.tagType);
    Badge(
      tag.id,
      ClassList(ColourUtility("bg", c, "50"), BadgeLayout),
      ClassList(ColourUtility("text", c, "500"), DotLayout),
      ClassList(ColourUtility("text", c, "400"), CaptionLayout),
      tag.name)
  }

  /** The first space-separated class of a class list. */
  function FirstClass(cls: string): (r: string)
    ensures |r| <= |cls| && r == cls[..|r|]
    ensures ' ' !in r
    ensures |r| == |cls| || cls[|r|] == ' '
  {
    if cls == [] || cls[0] == ' ' then [] else [cls[0]] + FirstClass(cls[1..])
  }

  /** The first class of `w + " " + rest` is `w` when `w` holds no space. */
  lemma {:induction false} FirstClassOfWord(w: string, rest: string)
    requires ' ' !in w
    ensures FirstClass(ClassList(w, rest)) == w
  {
    if w != [] {
      assert ClassList(w, rest)[1..] == ClassList(w[1..], rest);
      FirstClassOfWord(w[1..], rest);
    }
  }

  /** The palette colour `c` for which `cls` leads with `utility-c-shade`, if any. */
  function ColourInClass(cls: string, utility: string, shade: string): (c: Option<string>)
    ensures c.Some? ==> c.value in Palette && FirstClass(cls) == ColourUtility(utility, c.value, shade)
    ensures c.None? ==> forall p :: p in Palette ==> FirstClass(cls) != ColourUtility(utility, p, shade)
  {
    var first := FirstClass(cls);
    if first == ColourUtility(utility, "red", shade) then Some("red")
    else if first == ColourUtility(utility, "yellow", shade) then Some("yellow")
    else if first == ColourUtility(utility, "teal", shade) then Some("teal")
    else None
  }

  /** Two palette colours give two different utilities: they differ right after `utility-`. */
  lemma UtilitiesDiffer(utility: string, p: string, q: string, shade: string)
    requires p in Palette && q in Palette && p != q
    ensures ColourUtility(utility, p, shade) != ColourUtility(utility, q, shade)
  {
    assert ColourUtility(utility, p, shade)[|utility| + 1] == p[0];
    assert ColourUtility(utility, q, shade)[|utility| + 1] == q[0];
  }

  /** A class list that leads with `utility-c-shade` is read back as colour `c`. */
  lemma ColourInUtilityClass(utility: string, c: string, shade: string, rest: string)
    requires c in Palette && ' ' !in utility && ' ' !in shade
    ensures ColourInClass(ClassList(ColourUtility(utility, c, shade), rest), utility, shade) == Some(c)
  {
    var w := ColourUtility(utility, c, shade);
    assert ' ' !in w;
    FirstClassOfWord(w, rest);
    forall p | p in Palette && p != c
      ensures w != ColourUtility(utility, p, shade)
    {
      UtilitiesDiffer(utility, c, p, shade);
    }
  }

  /** The tag type a rendered badge shows, read back from its background class. */
  function BadgeTagType(b: Badge): (t: Option<TagType>)
    ensures t.Some? ==> FirstClass(b.badgeClass) == ColourUtility("bg", TagColour(t.value), "50")
  {
    match ColourInClass(b.badgeClass, "bg", "50")
    case Some(c) => TypeOfColour(c)
    case None => None
  }

  /** Every badge carries its tag's colour as `bg-<c>-50`, `text-<c>-500`
      and `text-<c>-400`, so the tag type can be read back from the badge. */
  lemma BadgeShowsTagColour(tag: Tag)
    ensures ColourInClass(BadgeFor(tag).badgeClass, "bg", "50") == Some(TagColour(tag.tagType))
    ensures ColourInClass(BadgeFor(tag).dotClass, "text", "500") == Some(TagColour(tag.tagType))
    ensures ColourInClass(BadgeFor(tag).captionClass, "text", "400") == Some(TagColour(tag.tagType))
    ensures BadgeTagType(BadgeFor(tag)) == Some(tag.tagType)
  {
    var c := TagColour(tag.tagType);
    ColourInUtilityClass("bg", c, "50", BadgeLayout);
    ColourInUtilityClass("text", c, "500", DotLayout);
    ColourInUtilityClass("text", c, "400", CaptionLayout);
    ColourRoundTrip(tag.tagType);
  }

  /** `el.tags.map(...)`: one badge per tag, in the item's tag order, keyed
      by the tag id, labelled with the tag name and coloured by its type. */
  function RenderTags(tags: seq<Tag>): (r: seq<Badge>)
    ensures |r| == |tags|
    ensures forall i :: 0 <= i < |tags| ==> r[i] == BadgeFor(tags[i])
    ensures forall i :: 0 <= i < |tags| ==>
      && r[i].key == tags[i].id
      && r[i].caption == tags[i].name
      && BadgeTagType(r[i]) == Some(tags[i].tagType)
  {
    if tags == [] then []
    else
      BadgeShowsTagColour(tags[0]);
      [BadgeFor(tags[0])] + RenderTags(tags[1..])
  }
}
