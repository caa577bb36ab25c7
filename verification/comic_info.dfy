/** The ComicInfo tags written into every chapter archive, composed in
    layers (manga, then volume, then chapter) as Python dict literals with
    `**` unpacking, and the archive's file name. */
module ComicInfo {
  import opened PyValues
  import MangaUtils

  // ---- Ordered dicts ----

  /** A dict as its entries in insertion order. */
  type Entries = seq<(string, Json)>

  /** `d.get(k)` on an ordered dict, None when the key is absent. */
  function Lookup(e: Entries, k: string): Option<Json> {
    if e == [] then None else if e[0].0 == k then Some(e[0].1) else Lookup(e[1..], k)
  }

  lemma {:induction false} LookupAppend(x: Entries, y: Entries, k: string)
    ensures Lookup(x + y, k) == if Lookup(x, k).Some? then Lookup(x, k) else Lookup(y, k)
  {
    if x != [] {
      assert (x + y)[0] == x[0];
      assert (x + y)[1..] == x[1..] + y;
      LookupAppend(x[1..], y, k);
    } else {
      assert x + y == y;
    }
  }

  lemma {:induction false} LookupAbsent(e: Entries, k: string)
    requires forall i :: 0 <= i < |e| ==> e[i].0 != k
    ensures Lookup(e, k) == None
  {
    if e != [] {
      LookupAbsent(e[1..], k);
    }
  }

  /** The first entry with key `k` gives its value. */
  lemma {:induction false} LookupAt(e: Entries, i: nat, k: string)
    requires i < |e| && e[i].0 == k
    requires forall j :: 0 <= j < i ==> e[j].0 != k
    ensures Lookup(e, k) == Some(e[i].1)
  {
    if i > 0 {
      LookupAt(e[1..], i - 1, k);
    }
  }

  /** The entries of `a`, in `a`'s order, each with `b`'s value when `b`
      has the key. */
  function Replaced(a: Entries, b: Entries): (r: Entries)
    ensures |r| == |a|
    ensures forall i :: 0 <= i < |a| ==> r[i].0 == a[i].0
  {
    if a == [] then []
    else [(a[0].0, if Lookup(b, a[0].0).Some? then Lookup(b, a[0].0).value else a[0].1)] + Replaced(a[1..], b)
  }

  /** `a`'s keys, with `b`'s value where `b` has one. */
  lemma {:induction false} ReplacedLookup(a: Entries, b: Entries, k: string)
    ensures Lookup(Replaced(a, b), k) == if Lookup(a, k).None? then None else if Lookup(b, k).Some? then Lookup(b, k) else Lookup(a, k)
  {
    if a != [] {
      var r := Replaced(a, b);
      assert r[1..] == Replaced(a[1..], b);
      ReplacedLookup(a[1..], b, k);
    }
  }

  /** The entries of `b` whose key `a` does not have, in `b`'s order. */
  function Fresh(a: Entries, b: Entries): (r: Entries)
    ensures |r| <= |b|
  {
    if b == [] then []
    else if Lookup(a, b[0].0).Some? then Fresh(a, b[1..])
    else [b[0]] + Fresh(a, b[1..])
  }

  /** Exactly `b`'s keys that `a` lacks. */
  lemma {:induction false} FreshLookup(a: Entries, b: Entries, k: string)
    ensures Lookup(Fresh(a, b), k) == if Lookup(a, k).Some? then None else Lookup(b, k)
  {
    if b != [] {
      FreshLookup(a, b[1..], k);
      if Lookup(a, b[0].0).None? {
        assert ([b[0]] + Fresh(a, b[1..]))[1..] == Fresh(a, b[1..]);
      }
    }
  }

  /** `{**a, **b}`: `a`'s keys keep their places and take `b`'s values where
      `b` has them; `b`'s other keys follow in `b`'s order. */
  function Overlay(a: Entries, b: Entries): (r: Entries)
    ensures |r| >= |a|
    ensures forall i :: 0 <= i < |a| ==> r[i].0 == a[i].0
  {
    Replaced(a, b) + Fresh(a, b)
  }

  /** A key of `{**a, **b}` has `b`'s value when `b` has it, else `a`'s. */
  lemma OverlayLookup(a: Entries, b: Entries, k: string)
    ensures Lookup(Overlay(a, b), k) == if Lookup(b, k).Some? then Lookup(b, k) else Lookup(a, k)
  {
    ReplacedLookup(a, b, k);
    FreshLookup(a, b, k);
    LookupAppend(Replaced(a, b), Fresh(a, b), k);
  }

  // ---- Field values as the tags show them ----

  /** `", ".join(items)`. */
  function Join(items: seq<string>): (r: string)
    ensures items == [] ==> r == ""
    ensures |items| == 1 ==> r == items[0]
  {
    if items == [] then "" else if |items| == 1 then items[0] else items[0] + ", " + Join(items[1..])
  }

  /** One more item is appended after a separator. */
  lemma {:induction false} JoinSnoc(items: seq<string>, x: string)
    requires items != []
    ensures Join(items + [x]) == Join(items) + ", " + x
    decreases |items|
  {
    if |items| > 1 {
      assert (items + [x])[1..] == items[1..] + [x];
      JoinSnoc(items[1..], x);
    }
  }

  /** The texts of items that are all strings. */
  function Texts(items: seq<Json>): (r: seq<string>)
    requires forall i :: 0 <= i < |items| ==> items[i].JStr?
    ensures |r| == |items| && forall i :: 0 <= i < |items| ==> r[i] == items[i].s
  {
    if items == [] then [] else [items[0].s] + Texts(items[1..])
  }

  /** The characters of a string, each as a string of its own. */
  function Chars(s: string): (r: seq<string>)
    ensures |r| == |s| && forall i :: 0 <= i < |s| ==> r[i] == [s[i]]
  {
    if s == [] then [] else [[s[0]]] + Chars(s[1..])
  }

  /** Whether `", ".join` accepts a field value: a list of strings, or a
      string (whose characters are the items). */
  predicate Joinable(v: Json) {
    v.JStr? || (v.JList? && forall i :: 0 <= i < |v.items| ==> v.items[i].JStr?)
  }

  /** `", ".join(value)` of a list field: a list of strings is joined, a
      string is joined character by character, and anything else, a list
      holding a non-string included, raises TypeError. */
  function JoinValue(v: Json): (r: Result<string>)
    ensures r.Ok? <==> Joinable(v)
    ensures r.Err? ==> r.error == TypeError
    ensures v.JList? && Joinable(v) ==> r == Ok(Join(Texts(v.items)))
    ensures v.JStr? ==> r == Ok(Join(Chars(v.s)))
  {
    if v.JStr? then Ok(Join(Chars(v.s)))
    else if Joinable(v) then Ok(Join(Texts(v.items)))
    else Err(TypeError)
  }

  /** `", ".join` of several field values in turn, up to the first raise. */
  function JoinEach(vs: seq<Json>): (r: Result<seq<string>>)
    ensures r.Ok? <==> forall i :: 0 <= i < |vs| ==> Joinable(vs[i])
    ensures r.Ok? ==> |r.value| == |vs| && forall i :: 0 <= i < |vs| ==> Ok(r.value[i]) == JoinValue(vs[i])
    ensures r.Err? ==> r.error == TypeError
  {
    if vs == [] then Ok([])
    else
      match JoinValue(vs[0])
      case Err(e) => Err(e)
      case Ok(x) =>
        match JoinEach(vs[1..])
        case Err(e) => Err(e)
        case Ok(xs) => Ok([x] + xs)
  }

  /** Whether a value has a `year`: a datetime or a date. */
  predicate HasDate(v: Json) {
    v.JTime? && v.t.kind != TimeKind
  }

  /** The `volume` and `chapter` properties: a float number with no
      fractional part is shown as an int, anything else as it is. */
  function Display(n: Json): (r: Json)
    ensures n.JFloat? && n.r == n.r.Floor as real ==> r == JInt(n.r.Floor)
    ensures !(n.JFloat? && n.r == n.r.Floor as real) ==> r == n
    ensures r.JInt? && n.JFloat? ==> r.i as real == n.r
  {
    if n.JFloat? && n.r == n.r.Floor as real then JInt(n.r.Floor) else n
  }

  /** `label` of an enum member of `cls`; anything else has no label. */
  function MemberLabel(cls: EnumClass, j: Json): (r: Result<Json>)
    ensures r.Ok? <==> j.JMember? && j.enumName == cls.name && j.index < |cls.labels|
    ensures r.Ok? ==> r.value == JStr(cls.labels[j.index])
    ensures r.Err? ==> r.error == AttributeError
  {
    if j.JMember? && j.enumName == cls.name && j.index < |cls.labels| then Ok(JStr(cls.labels[j.index])) else Err(AttributeError)
  }

  /** What the tags read from a manga, a volume and a chapter, at the types
      their fields' coercions produce. */
  datatype MangaView = MangaView(name: string, localizedName: string, description: string, genres: seq<string>, tags: seq<string>, url: string)

  datatype VolumeView = VolumeView(description: string, number: Json)

  /** A chapter's fields; the list fields and the release date are the
      stored values, which the tags read without checking their type. */
  datatype ChapterView = ChapterView(
    name: string, number: Json, description: string,
    publisher: Json, imprint: Json, releaseDate: Json,
    writer: Json, penciller: Json, inker: Json, colorist: Json,
    letterer: Json, coverArtist: Json, editor: Json, translator: Json,
    pageCount: Json, localization: string, format: Json, ageRating: Json, isbn: string)

  /** The credit lists after the date, in tag order. */
  function LaterCredits(c: ChapterView): (r: seq<Json>)
    ensures |r| == 8
  {
    [c.writer, c.penciller, c.inker, c.colorist, c.letterer, c.coverArtist, c.editor, c.translator]
  }

  /** What the chapter's tags show once every read succeeded. */
  datatype ChapterText = ChapterText(publisher: string, imprint: string, date: Moment, credits: seq<string>,
                                     format: Json, ageRating: Json)

  // ---- The three layers ----

  /** `Manga.get_fields_values_for_xml`. */
  function MangaXml(m: MangaView): (r: Entries)
    ensures |r| == 6
  {
    [("Series", JStr(m.name)), ("LocalizedSeries", JStr(m.localizedName)), ("Summary", JStr(m.description)),
     ("Genre", JStr(Join(m.genres))), ("Tags", JStr(Join(m.tags))), ("Web", JStr(m.url))]
  }

  /** A `Summary` entry only for a non-empty description. */
  function SummaryEntry(description: string): Entries {
    if |description| > 0 then [("Summary", JStr(description))] else []
  }

  /** `Volume.get_fields_values_for_xml`: the manga's dict, its `Summary`
      replaced by a non-empty volume description, then `Volume`. */
  function VolumeXml(manga: Entries, v: VolumeView): (r: Entries)
    ensures Lookup(r, "Volume") == Some(Display(v.number))
    ensures |v.description| > 0 ==> Lookup(r, "Summary") == Some(JStr(v.description))
    ensures |v.description| == 0 ==> Lookup(r, "Summary") == Lookup(manga, "Summary")
  {
    var withSummary := Overlay(manga, SummaryEntry(v.description));
    OverlayLookup(withSummary, [("Volume", Display(v.number))], "Volume");
    OverlayLookup(withSummary, [("Volume", Display(v.number))], "Summary");
    OverlayLookup(manga, SummaryEntry(v.description), "Summary");
    Overlay(withSummary, [("Volume", Display(v.number))])
  }

  /** Every other key of the manga's dict reaches the volume's unchanged. */
  lemma VolumeXmlKeeps(manga: Entries, v: VolumeView, k: string)
    requires k != "Volume" && k != "Summary"
    ensures Lookup(VolumeXml(manga, v), k) == Lookup(manga, k)
  {
    var withSummary := Overlay(manga, SummaryEntry(v.description));
    OverlayLookup(withSummary, [("Volume", Display(v.number))], k);
    OverlayLookup(manga, SummaryEntry(v.description), k);
  }

  /** The entries a chapter adds after its number and summary: the
      publishing entries, the credits, then the rest. */
  function ChapterTail(c: ChapterView, t: ChapterText): Entries
    requires |t.credits| == 8
  {
    TailPublishing(t) + TailCredits(t) + TailRest(c, t)
  }

  function TailPublishing(t: ChapterText): Entries {
    [("Publisher", JStr(t.publisher)), ("Imprint", JStr(t.imprint)),
     ("Year", JInt(t.date.year)), ("Month", JInt(t.date.month)), ("Day", JInt(t.date.day))]
  }

  function TailCredits(t: ChapterText): Entries
    requires |t.credits| == 8
  {
    [("Writer", JStr(t.credits[0])), ("Penciller", JStr(t.credits[1])), ("Inker", JStr(t.credits[2])),
     ("Colorist", JStr(t.credits[3])), ("Letterer", JStr(t.credits[4])), ("CoverArtist", JStr(t.credits[5])),
     ("Editor", JStr(t.credits[6])), ("Translator", JStr(t.credits[7]))]
  }

  function TailRest(c: ChapterView, t: ChapterText): Entries {
    [("PageCount", c.pageCount), ("LanguageISO", JStr(c.localization)), ("Format", t.format),
     ("AgeRating", t.ageRating), ("GTIN", JStr(c.isbn))]
  }

  /** Whether every read of the chapter's tags succeeds: the credit lists
      join, the release date has a year, and format and age rating are
      members with a label. */
  predicate Renders(c: ChapterView, formats: EnumClass, ageRatings: EnumClass) {
    && Joinable(c.publisher) && Joinable(c.imprint) && HasDate(c.releaseDate)
    && (forall i :: 0 <= i < 8 ==> Joinable(LaterCredits(c)[i]))
    && MemberLabel(formats, c.format).Ok? && MemberLabel(ageRatings, c.ageRating).Ok?
  }

  /** The reads of the chapter's tags in dict order, up to the first raise:
      the publisher and imprint joins, the date's `year`, the other joins,
      then the two labels. */
  function Render(c: ChapterView, formats: EnumClass, ageRatings: EnumClass): (r: Result<ChapterText>)
    ensures r.Ok? <==> Renders(c, formats, ageRatings)
    ensures !Joinable(c.publisher) || !Joinable(c.imprint) ==> r == Err(TypeError)
    ensures Joinable(c.publisher) && Joinable(c.imprint) && !HasDate(c.releaseDate) ==> r == Err(AttributeError)
    ensures (Joinable(c.publisher) && Joinable(c.imprint) && HasDate(c.releaseDate)
             && exists i :: 0 <= i < 8 && !Joinable(LaterCredits(c)[i])) ==> r == Err(TypeError)
    ensures (Joinable(c.publisher) && Joinable(c.imprint) && HasDate(c.releaseDate)
             && (forall i :: 0 <= i < 8 ==> Joinable(LaterCredits(c)[i])) && r.Err?) ==> r.error == AttributeError
    ensures r.Ok? ==> r.value.date == c.releaseDate.t
    ensures r.Ok? ==> |r.value.credits| == 8
    ensures r.Ok? ==> r.value.format == MemberLabel(formats, c.format).value && r.value.ageRating == MemberLabel(ageRatings, c.ageRating).value
  {
    match (JoinValue(c.publisher), JoinValue(c.imprint))
    case (Err(e), _) => Err(e)
    case (_, Err(e)) => Err(e)
    case (Ok(publisher), Ok(imprint)) =>
      if !HasDate(c.releaseDate) then Err(AttributeError)
      else
        match JoinEach(LaterCredits(c))
        case Err(e) => Err(e)
        case Ok(credits) =>
          match (MemberLabel(formats, c.format), MemberLabel(ageRatings, c.ageRating))
          case (Err(e), _) => Err(e)
          case (_, Err(e)) => Err(e)
          case (Ok(format), Ok(age)) => Ok(ChapterText(publisher, imprint, c.releaseDate.t, credits, format, age))
  }

  /** `Chapter.get_fields_values_for_xml`: the volume's dict, then title and
      number, a `Summary` for a non-empty chapter description, then the
      credits, date parts, page count, language, format and age-rating
      labels and GTIN. The reads raise in dict order: a credit list that is
      not a list of strings makes `join` raise TypeError; a release date
      that is None or was not parsed has no `year`, and a format or age
      rating that is no member has no `label`: AttributeError. */
  function ChapterXml(volume: Entries, c: ChapterView, formats: EnumClass, ageRatings: EnumClass): (r: Result<Entries>)
    ensures r.Ok? <==> Renders(c, formats, ageRatings)
    ensures r.Err? ==> r == Err(Render(c, formats, ageRatings).error)
  {
    match Render(c, formats, ageRatings)
    case Err(e) => Err(e)
    case Ok(t) =>
      Ok(Overlay(Overlay(Overlay(volume, [("Title", JStr(c.name)), ("Number", Display(c.number))]),
                         SummaryEntry(c.description)),
                 ChapterTail(c, t)))
  }

  /** How the layers combine for one chapter: the manga's six tags come
      first in their order, followed by `Volume`; the series, volume and
      chapter number are the ones of their own layer; and `Summary` is the
      chapter's description when it is non-empty, else the volume's when
      that is non-empty, else the manga's. */
  lemma ChapterLayers(m: MangaView, v: VolumeView, c: ChapterView, formats: EnumClass, ageRatings: EnumClass)
    requires ChapterXml(VolumeXml(MangaXml(m), v), c, formats, ageRatings).Ok?
    ensures var r := ChapterXml(VolumeXml(MangaXml(m), v), c, formats, ageRatings).value;
            && |r| >= 7
            && r[0].0 == "Series" && r[1].0 == "LocalizedSeries" && r[2].0 == "Summary"
            && r[3].0 == "Genre" && r[4].0 == "Tags" && r[5].0 == "Web" && r[6].0 == "Volume"
            && Lookup(r, "Series") == Some(JStr(m.name))
            && Lookup(r, "Volume") == Some(Display(v.number))
            && Lookup(r, "Number") == Some(Display(c.number))
            && Lookup(r, "Year") == Some(JInt(c.releaseDate.t.year))
            && Lookup(r, "Summary") == Some(JStr(if |c.description| > 0 then c.description
                                                 else if |v.description| > 0 then v.description
                                                 else m.description))
  {
    var vol := VolumeXml(MangaXml(m), v);
    VolumeLayers(m, v);
    var t := Render(c, formats, ageRatings).value;
    var head := [("Title", JStr(c.name)), ("Number", Display(c.number))];
    var summary := SummaryEntry(c.description);
    var tail := ChapterTail(c, t);
    TailKeys(c, t);
    HeadKeys(c);
    OverlayChain(vol, head, summary, tail, "Series");
    OverlayChain(vol, head, summary, tail, "Volume");
    OverlayChain(vol, head, summary, tail, "Number");
    OverlayChain(vol, head, summary, tail, "Summary");
    OverlayChain(vol, head, summary, tail, "Year");
  }

  /** Three layers over `a`: the last layer that has the key decides. */
  lemma OverlayChain(a: Entries, b: Entries, c: Entries, d: Entries, k: string)
    ensures Lookup(Overlay(Overlay(Overlay(a, b), c), d), k)
            == if Lookup(d, k).Some? then Lookup(d, k)
               else if Lookup(c, k).Some? then Lookup(c, k)
               else if Lookup(b, k).Some? then Lookup(b, k)
               else Lookup(a, k)
  {
    OverlayLookup(a, b, k);
    OverlayLookup(Overlay(a, b), c, k);
    OverlayLookup(Overlay(Overlay(a, b), c), d, k);
  }

  /** The volume layer: the manga's six keys in their order, then `Volume`,
      with `Summary` taken from the volume when its description is
      non-empty. */
  lemma VolumeLayers(m: MangaView, v: VolumeView)
    ensures var r := VolumeXml(MangaXml(m), v);
            && |r| == 7
            && r[0].0 == "Series" && r[1].0 == "LocalizedSeries" && r[2].0 == "Summary"
            && r[3].0 == "Genre" && r[4].0 == "Tags" && r[5].0 == "Web" && r[6].0 == "Volume"
            && Lookup(r, "Series") == Some(JStr(m.name))
            && Lookup(r, "Volume") == Some(Display(v.number))
            && Lookup(r, "Number") == None
            && Lookup(r, "Summary") == Some(JStr(if |v.description| > 0 then v.description else m.description))
  {
    var manga := MangaXml(m);
    var summary := SummaryEntry(v.description);
    var volume := [("Volume", Display(v.number))];
    var withSummary := Overlay(manga, summary);
    LookupAt(manga, 2, "Summary");
    LookupAt(manga, 0, "Series");
    LookupAbsent(manga, "Volume");
    LookupAbsent(manga, "Number");
    LookupAbsent(summary, "Volume");
    LookupAbsent(summary, "Number");
    LookupAbsent(summary, "Series");
    LookupAbsent(volume, "Summary");
    LookupAbsent(volume, "Series");
    LookupAbsent(volume, "Number");
    OverlayLookup(manga, summary, "Series");
    OverlayLookup(withSummary, volume, "Series");
    OverlayLookup(manga, summary, "Volume");
    OverlayLookup(withSummary, volume, "Volume");
    OverlayLookup(manga, summary, "Number");
    OverlayLookup(withSummary, volume, "Number");
    OverlayLookup(manga, summary, "Summary");
    OverlayLookup(withSummary, volume, "Summary");
    assert |Fresh(manga, summary)| == 0 by {
      if summary != [] {
        assert Fresh(manga, summary[1..]) == [];
      }
    }
    LookupAbsent(withSummary, "Volume");
    assert Fresh(withSummary, volume) == volume by {
      assert Fresh(withSummary, volume[1..]) == [];
    }
  }

  /** The chapter's title, number and summary entries name no other layer's
      tag, and only the number entry is `Number`. */
  lemma HeadKeys(c: ChapterView)
    ensures var head := [("Title", JStr(c.name)), ("Number", Display(c.number))];
            && Lookup(head, "Summary") == None && Lookup(head, "Series") == None && Lookup(head, "Volume") == None
    ensures var summary := SummaryEntry(c.description);
            && Lookup(summary, "Series") == None && Lookup(summary, "Volume") == None && Lookup(summary, "Number") == None
  {
    var head := [("Title", JStr(c.name)), ("Number", Display(c.number))];
    var summary := SummaryEntry(c.description);
    LookupAbsent(head, "Summary");
    LookupAbsent(head, "Series");
    LookupAbsent(head, "Volume");
    LookupAbsent(summary, "Series");
    LookupAbsent(summary, "Volume");
    LookupAbsent(summary, "Number");
  }

  /** None of the chapter's trailing keys names an earlier layer's tag, and
      its `Year` is the release year. */
  lemma TailKeys(c: ChapterView, t: ChapterText)
    requires |t.credits| == 8
    ensures Lookup(ChapterTail(c, t), "Summary") == None
    ensures Lookup(ChapterTail(c, t), "Series") == None
    ensures Lookup(ChapterTail(c, t), "Volume") == None
    ensures Lookup(ChapterTail(c, t), "Number") == None
    ensures Lookup(ChapterTail(c, t), "Year") == Some(JInt(t.date.year))
  {
    LookupAt(TailPublishing(t), 2, "Year");
    LookupAppend(TailPublishing(t), TailCredits(t), "Year");
    LookupAppend(TailPublishing(t) + TailCredits(t), TailRest(c, t), "Year");
    TailLacks(c, t, "Summary");
    TailLacks(c, t, "Series");
    TailLacks(c, t, "Volume");
    TailLacks(c, t, "Number");
  }

  /** No trailing key starts with `S`, `V` or `N`. */
  lemma TailLacks(c: ChapterView, t: ChapterText, k: string)
    requires |t.credits| == 8
    requires |k| > 0 && (k[0] == 'S' || k[0] == 'V' || k[0] == 'N')
    ensures Lookup(ChapterTail(c, t), k) == None
  {
    var (a, b, d) := (TailPublishing(t), TailCredits(t), TailRest(c, t));
    PublishingLacks(t, k);
    CreditsLacks(t, k);
    RestLacks(c, t, k);
    LookupAppend(a, b, k);
    LookupAppend(a + b, d, k);
  }

  lemma PublishingLacks(t: ChapterText, k: string)
    requires |k| > 0 && (k[0] == 'S' || k[0] == 'V' || k[0] == 'N')
    ensures Lookup(TailPublishing(t), k) == None
  {
    PartLacks(TailPublishing(t), k);
  }

  lemma CreditsLacks(t: ChapterText, k: string)
    requires |t.credits| == 8
    requires |k| > 0 && (k[0] == 'S' || k[0] == 'V' || k[0] == 'N')
    ensures Lookup(TailCredits(t), k) == None
  {
    PartLacks(TailCredits(t), k);
  }

  lemma RestLacks(c: ChapterView, t: ChapterText, k: string)
    requires |k| > 0 && (k[0] == 'S' || k[0] == 'V' || k[0] == 'N')
    ensures Lookup(TailRest(c, t), k) == None
  {
    PartLacks(TailRest(c, t), k);
  }

  lemma PartLacks(e: Entries, k: string)
    requires |k| > 0 && forall i :: 0 <= i < |e| ==> |e[i].0| > 0 && e[i].0[0] != k[0]
    ensures Lookup(e, k) == None
  {
    LookupAbsent(e, k);
  }

  // ---- The XML document ----

  /** `create_xml` before pretty-printing: one `ComicInfo` child per entry
      whose value is not None, in dict order, its text `text(value)` (the
      unescaped `str` of the value). */
  function CreateXml(entries: Entries, text: Json -> string): (r: seq<(string, string)>)
    ensures |r| <= |entries|
  {
    if entries == [] then []
    else if entries[0].1 == JNone then CreateXml(entries[1..], text)
    else [(entries[0].0, text(entries[0].1))] + CreateXml(entries[1..], text)
  }

  /** Every child comes from an entry whose value is not None. */
  lemma {:induction false} CreateXmlSound(entries: Entries, text: Json -> string, i: nat)
    requires i < |CreateXml(entries, text)|
    ensures exists j :: 0 <= j < |entries| && entries[j].1 != JNone && CreateXml(entries, text)[i] == (entries[j].0, text(entries[j].1))
  {
    var rest := CreateXml(entries[1..], text);
    if entries[0].1 == JNone || i > 0 {
      var i' := if entries[0].1 == JNone then i else i - 1;
      assert CreateXml(entries, text)[i] == rest[i'];
      CreateXmlSound(entries[1..], text, i');
      var j :| 0 <= j < |entries[1..]| && entries[1..][j].1 != JNone && rest[i'] == (entries[1..][j].0, text(entries[1..][j].1));
      assert entries[j + 1] == entries[1..][j];
    } else {
      assert CreateXml(entries, text)[0] == (entries[0].0, text(entries[0].1));
    }
  }

  /** Every entry whose value is not None has its child. */
  lemma {:induction false} CreateXmlComplete(entries: Entries, text: Json -> string, j: nat)
    requires j < |entries| && entries[j].1 != JNone
    ensures (entries[j].0, text(entries[j].1)) in CreateXml(entries, text)
  {
    if j > 0 {
      assert entries[j] == entries[1..][j - 1];
      CreateXmlComplete(entries[1..], text, j - 1);
    }
  }

  /** With no None value, child `i` is entry `i`. */
  lemma {:induction false} CreateXmlAllPresent(entries: Entries, text: Json -> string)
    requires forall j :: 0 <= j < |entries| ==> entries[j].1 != JNone
    ensures |CreateXml(entries, text)| == |entries|
    ensures forall i :: 0 <= i < |entries| ==> CreateXml(entries, text)[i] == (entries[i].0, text(entries[i].1))
  {
    if entries != [] {
      assert forall j :: 0 <= j < |entries[1..]| ==> entries[1..][j] == entries[j + 1];
      CreateXmlAllPresent(entries[1..], text);
    }
  }

  /** The children keep the dict's order: the document of two runs of
      entries is the document of the first followed by that of the second. */
  lemma {:induction false} CreateXmlAppend(a: Entries, b: Entries, text: Json -> string)
    ensures CreateXml(a + b, text) == CreateXml(a, text) + CreateXml(b, text)
  {
    if a != [] {
      assert (a + b)[0] == a[0];
      assert (a + b)[1..] == a[1..] + b;
      CreateXmlAppend(a[1..], b, text);
    } else {
      assert a + b == b;
    }
  }

  // ---- The archive's file name ----

  /** `f"{x}"` of a shown number: an int's decimal digits, anything else
      through `str`. */
  function NumberText(show: Json -> string, j: Json): string {
    if j.JInt? then IntText(j.i) else show(j)
  }

  /** What stands between the manga name and the extension. */
  function Infix(volume: Json, chapter: Json, show: Json -> string): string {
    " - Vol. " + NumberText(show, Display(volume)) + " Ch. " + NumberText(show, Display(chapter))
  }

  /** The name before it is made filesystem-safe. */
  function RawFileName(mangaName: string, volume: Json, chapter: Json, show: Json -> string): string {
    mangaName + Infix(volume, chapter, show) + ".cbz"
  }

  /** `Chapter.get_file_name`: the safe form of
      `"{manga name} - Vol. {volume} Ch. {chapter}.cbz"`. */
  function FileName(mangaName: string, volume: Json, chapter: Json, show: Json -> string): (r: string)
    ensures |r| <= MangaUtils.MAX_FILENAME_LENGTH
    ensures forall i :: 0 <= i < |r| ==> !MangaUtils.IsInvalid(r[i])
    ensures r == [] || r[0] != '.'
  {
    MangaUtils.UnderscoreIsValid(RawFileName(mangaName, volume, chapter, show));
    MangaUtils.MakeValidFilename(RawFileName(mangaName, volume, chapter, show), "_")
  }

  /** A name that fits keeps its `.cbz` extension: the cut at 255
      characters is the only way to lose it. */
  lemma FileNameKeepsExtension(mangaName: string, volume: Json, chapter: Json, show: Json -> string)
    requires |RawFileName(mangaName, volume, chapter, show)| <= MangaUtils.MAX_FILENAME_LENGTH
    ensures var r := FileName(mangaName, volume, chapter, show);
            |r| >= 4 && r[|r| - 4..] == ".cbz"
  {
    var full := RawFileName(mangaName, volume, chapter, show);
    RawFileNameShape(mangaName, volume, chapter, show);
    var s := MangaUtils.ReplaceInvalid(full, "_");
    ReplaceKeepsShape(full, |mangaName| + 1);
    StripKeepsCbz(s, |mangaName| + 1);
    var stripped := MangaUtils.Strip(MangaUtils.Strip(s, MangaUtils.IsSpace), MangaUtils.IsDot);
    assert |stripped| <= |full| <= MangaUtils.MAX_FILENAME_LENGTH;
    var r := MangaUtils.MakeValidFilename(full, "_");
    assert r == stripped;
    assert FileName(mangaName, volume, chapter, show) == r;
  }

  /** The raw name has a `-` right after the manga name and ends in `.cbz`. */
  lemma RawFileNameShape(mangaName: string, volume: Json, chapter: Json, show: Json -> string)
    ensures var full := RawFileName(mangaName, volume, chapter, show);
            |mangaName| + 5 < |full| && full[|mangaName| + 1] == '-' && full[|full| - 4..] == ".cbz"
  {
    var middle := Infix(volume, chapter, show);
    var x := mangaName + middle;
    var full := RawFileName(mangaName, volume, chapter, show);
    assert middle[1] == '-';
    assert x[|mangaName| + 1] == middle[1];
    assert full[|x|..] == ".cbz";
  }

  /** The `_` substitution keeps the length, the `-` and the `.cbz` ending. */
  lemma ReplaceKeepsShape(full: string, k: nat)
    requires k + 4 < |full| && full[k] == '-' && full[|full| - 4..] == ".cbz"
    ensures var s := MangaUtils.ReplaceInvalid(full, "_");
            |s| == |full| && s[k] == '-' && s[|s| - 4..] == ".cbz"
  {
    MangaUtils.ReplaceOneForOne(full, '_');
    var s := MangaUtils.ReplaceInvalid(full, "_");
    assert !MangaUtils.IsInvalid('-') && !MangaUtils.IsInvalid('.') && !MangaUtils.IsInvalid('c');
    assert !MangaUtils.IsInvalid('b') && !MangaUtils.IsInvalid('z');
    assert s[|s| - 4..] == ".cbz" by {
      forall i | |s| - 4 <= i < |s|
        ensures s[i] == full[i]
      {
      }
    }
  }

  /** Stripping whitespace and then dots keeps a `.cbz` ending when some
      character before it is neither. */
  lemma StripKeepsCbz(s: string, k: nat)
    requires k + 4 < |s| && s[k] == '-' && s[|s| - 4..] == ".cbz"
    ensures var r := MangaUtils.Strip(MangaUtils.Strip(s, MangaUtils.IsSpace), MangaUtils.IsDot);
            |r| <= |s| && |r| >= 4 && r[|r| - 4..] == ".cbz"
  {
    StripStepKeepsCbz(s, MangaUtils.IsSpace, k);
    var s1 := MangaUtils.Strip(s, MangaUtils.IsSpace);
    StripStepKeepsCbz(s1, MangaUtils.IsDot, k - (|s| - |s1|));
  }

  /** One strip removes a leading run that ends before the marker `-`. */
  lemma StripStepKeepsCbz(s: string, p: char -> bool, k: nat)
    requires k + 4 < |s| && s[k] == '-' && s[|s| - 4..] == ".cbz"
    requires !p('-') && !p('z')
    ensures var r := MangaUtils.Strip(s, p);
            && |s| - |r| <= k && r[k - (|s| - |r|)] == '-' && r[|r| - 4..] == ".cbz"
  {
    assert s[|s| - 1] == 'z';
    MangaUtils.StripKeepsEnd(s, p, k);
  }
}
