/** Rendering stored feeds as RSS 2.0 documents (telegram_to_rss/generate_feed.py). The XML tree
    is a datatype; serialisation and the file write are not modelled. */
module Render {
  import opened Wrappers
  import opened Text
  import opened EntryIds
  import opened Ingest
  import opened Store

  // ---------------------------------------------------------------------------------------------
  // clean_title

  /** Where `.*?>` stops after a '<': the offset of the first '>' in `t`, provided no newline
      comes before it ('.' does not match a newline). */
  function FindClose(t: string): (r: Option<nat>)
    ensures r.Some? ==> r.value < |t| && t[r.value] == '>' && '\n' !in t[..r.value] && '>' !in t[..r.value]
  {
    if t == [] then None
    else if t[0] == '>' then Some(0)
    else if t[0] == '\n' then None
    else match FindClose(t[1..])
      case None => None
      case Some(k) =>
        assert t[..k + 1] == [t[0]] + t[1..][..k];
        Some(k + 1)
  }

  /** `re.sub("<.*?>", "", s)`: scanning left to right, a '<' that has a '>' after it on the same
      line starts a span that is removed up to that first '>'; every other character is kept. */
  function StripTags(s: string): (r: string)
    ensures |r| <= |s|
    ensures forall c | c !in s :: c !in r
    decreases |s|
  {
    if s == [] then []
    else if s[0] == '<' && FindClose(s[1..]).Some? then
      var rest := s[FindClose(s[1..]).value + 2..];
      assert forall c | c in rest :: c in s;
      StripTags(rest)
    else
      assert forall c | c in s[1..] :: c in s;
      [s[0]] + StripTags(s[1..])
  }

  /** `clean_title`: tags removed, newlines turned into spaces, surrounding whitespace stripped. */
  function CleanTitle(s: string): string
  {
    Strip(ReplaceNewlines(StripTags(s), " "))
  }

  /** A clean title holds no newline, does not start or end with whitespace and is never longer
      than the message. */
  lemma CleanTitleShape(s: string)
    ensures '\n' !in CleanTitle(s)
    ensures CleanTitle(s) == [] || (!IsSpace(CleanTitle(s)[0]) && !IsSpace(CleanTitle(s)[|CleanTitle(s)| - 1]))
    ensures |CleanTitle(s)| <= |s|
  {
    ReplaceNewlinesShape(StripTags(s), " ");
  }

  lemma {:induction false} StripTagsWithoutTags(s: string)
    requires '<' !in s
    ensures StripTags(s) == s
    decreases |s|
  {
    if s != [] {
      assert s[0] in s;
      assert forall c | c in s[1..] :: c in s;
      StripTagsWithoutTags(s[1..]);
      assert [s[0]] + s[1..] == s;
    }
  }

  /** A message with no '<', no newline and no surrounding whitespace is its own clean title. */
  lemma CleanTitleIdentity(s: string)
    requires '<' !in s && '\n' !in s
    requires s == [] || (!IsSpace(s[0]) && !IsSpace(s[|s| - 1]))
    ensures CleanTitle(s) == s
  {
    StripTagsWithoutTags(s);
    ReplaceNewlinesIdentity(s, " ");
  }

  lemma {:induction false} FindCloseAt(t: string, rest: string)
    requires '>' !in t && '\n' !in t
    ensures FindClose(t + ">" + rest) == Some(|t|)
    decreases |t|
  {
    var u := t + ">" + rest;
    if t != [] {
      assert t[0] in t;
      assert u[1..] == t[1..] + ">" + rest;
      assert forall c | c in t[1..] :: c in t;
      FindCloseAt(t[1..], rest);
    }
  }

  /** A tag `<t>` on one line, met before any other '<', is removed and the scan resumes after it. */
  lemma {:induction false} StripTagsRemovesTag(a: string, t: string, b: string)
    requires '<' !in a && '>' !in t && '\n' !in t
    ensures StripTags(a + "<" + t + ">" + b) == a + StripTags(b)
    decreases |a|
  {
    if a == [] {
      assert a + "<" + t + ">" + b == "<" + t + ">" + b;
      StripTagsLeadingTag(t, b);
    } else {
      var s := a + "<" + t + ">" + b;
      assert s[0] == a[0] && a[0] != '<' by {
        assert a[0] in a;
      }
      assert s[1..] == a[1..] + "<" + t + ">" + b;
      assert '<' !in a[1..] by {
        assert forall c | c in a[1..] :: c in a;
      }
      StripTagsRemovesTag(a[1..], t, b);
      assert [a[0]] + a[1..] == a;
    }
  }

  /** The case of StripTagsRemovesTag where the tag comes first. */
  lemma StripTagsLeadingTag(t: string, b: string)
    requires '>' !in t && '\n' !in t
    ensures StripTags("<" + t + ">" + b) == StripTags(b)
  {
    var s := "<" + t + ">" + b;
    assert s[1..] == t + ">" + b;
    FindCloseAt(t, b);
    assert s[|t| + 2..] == b;
  }

  /** `message_text[:100]`. */
  function Title(message: string): string
  {
    var clean := CleanTitle(message);
    clean[..if |clean| < 100 then |clean| else 100]
  }

  /** The title a reader sees: a prefix of the clean title, at most 100 characters and never
      longer than the message, with no newline and no leading whitespace; empty only when the
      clean title is, and the whole clean title, without trailing whitespace, when that fits. */
  lemma TitleShape(message: string)
    ensures var t, clean := Title(message), CleanTitle(message);
      && |t| <= 100 && |t| <= |message| && t <= clean
      && '\n' !in t
      && (t == [] <==> clean == [])
      && (t == [] || !IsSpace(t[0]))
      && (|clean| <= 100 ==> t == clean && (t == [] || !IsSpace(t[|t| - 1])))
  {
    var t, clean := Title(message), CleanTitle(message);
    CleanTitleShape(message);
    assert forall c | c in t :: c in clean;
  }

  // ---------------------------------------------------------------------------------------------
  // URLs

  /** What `telethon_dialog_id_to_tg_id_or_username` returns. */
  datatype ResolvedId = Numeric(n: int) | Username(name: string)

  function FeedUrl(r: ResolvedId): string
  {
    match r
    case Numeric(n) => "https://t.me/c/" + IntToString(n)
    case Username(name) => "https://t.me/" + name
  }

  function EntryUrl(r: ResolvedId, msgId: int): string
  {
    match r
    case Numeric(n) => "https://t.me/c/" + IntToString(n) + "/" + IntToString(msgId)
    case Username(name) => "https://t.me/" + name + "/" + IntToString(msgId)
  }

  /** An entry URL is its channel URL followed by "/" and the message id, so one channel's entries
      get distinct URLs. */
  lemma EntryUrlExtendsFeedUrl(r: ResolvedId, m1: int, m2: int)
    ensures EntryUrl(r, m1) == FeedUrl(r) + "/" + IntToString(m1)
    ensures EntryUrl(r, m1) == EntryUrl(r, m2) ==> m1 == m2
  {
    var p := FeedUrl(r) + "/";
    if EntryUrl(r, m1) == EntryUrl(r, m2) {
      assert EntryUrl(r, m1) == p + IntToString(m1) && EntryUrl(r, m2) == p + IntToString(m2);
      assert IntToString(m1) == EntryUrl(r, m1)[|p|..];
      assert IntToString(m2) == EntryUrl(r, m2)[|p|..];
      IntToStringRoundTrip(m1);
      IntToStringRoundTrip(m2);
    }
  }

  /** Numeric ids and usernames without a '/' give URLs of different shapes. */
  lemma UrlShapesDiffer(n: int, name: string)
    requires name == [] || name[0] != 'c' || |name| == 1 || name[1] != '/'
    ensures FeedUrl(Numeric(n)) != FeedUrl(Username(name))
  {
    var a, b := FeedUrl(Numeric(n)), FeedUrl(Username(name));
    assert |a| >= 16 && a[13] == 'c' && a[14] == '/';
    assert |b| >= 15 ==> b[13] == name[0] && b[14] == name[1];
  }

  // ---------------------------------------------------------------------------------------------
  // Media slots

  /** How the loop at lines 72-102 reads a stored slot (the intended reading of line 75). */
  datatype SlotKind = FailedSlot | TooLargeSlot | FileSlot(path: string)

  function Classify(path: string): SlotKind
  {
    if path == "FAIL" then FailedSlot
    else if StartsWith(path, "TOO_LARGE") then TooLargeSlot
    else FileSlot(path)
  }

  function KindOf(s: Slot): SlotKind
  {
    match s
    case Downloaded(name) => FileSlot(name)
    case Failed => FailedSlot
    case TooLarge => TooLargeSlot
  }

  /** Reading back a stored slot recovers what ingestion recorded: file names never look like a
      marker. */
  lemma ClassifyRecoversSlot(feedId: int, media: seq<Slot>)
    requires NamedByPosition(feedId, media)
    ensures forall k | 0 <= k < |media| :: Classify(SlotText(media[k])) == KindOf(media[k])
  {
    forall k | 0 <= k < |media| ensures Classify(SlotText(media[k])) == KindOf(media[k]) {
      if media[k].Downloaded? {
        var msgId :| media[k].name == MediaName(feedId, msgId, k);
        MediaNameIsNotMarker(feedId, msgId, k);
      }
    }
  }

  /** `media_download_failure` after the loop. */
  function FailCount(media: seq<string>): nat
    decreases |media|
  {
    if media == [] then 0
    else FailCount(media[..|media| - 1]) + (if Classify(media[|media| - 1]) == FailedSlot then 1 else 0)
  }

  /** `media_too_large` after the loop. */
  function TooLargeCount(media: seq<string>): nat
    decreases |media|
  {
    if media == [] then 0
    else TooLargeCount(media[..|media| - 1]) + (if Classify(media[|media| - 1]) == TooLargeSlot then 1 else 0)
  }

  /** The failure count is the number of slots exactly equal to "FAIL". */
  lemma {:induction false} FailCountIsMultiplicity(media: seq<string>)
    ensures FailCount(media) == multiset(media)["FAIL"]
    decreases |media|
  {
    if media != [] {
      var init := media[..|media| - 1];
      FailCountIsMultiplicity(init);
      assert media == init + [media[|media| - 1]];
    }
  }

  /** The two counts over texts that classify as the given slots. */
  lemma {:induction false} FailCountOfKinds(texts: seq<string>, media: seq<Slot>)
    requires |texts| == |media| && forall k | 0 <= k < |media| :: Classify(texts[k]) == KindOf(media[k])
    ensures FailCount(texts) == multiset(media)[Failed]
    decreases |media|
  {
    if media != [] {
      var n := |media| - 1;
      FailCountOfKinds(texts[..n], media[..n]);
      assert media == media[..n] + [media[n]];
    }
  }

  lemma {:induction false} TooLargeCountOfKinds(texts: seq<string>, media: seq<Slot>)
    requires |texts| == |media| && forall k | 0 <= k < |media| :: Classify(texts[k]) == KindOf(media[k])
    ensures TooLargeCount(texts) == multiset(media)[TooLarge]
    decreases |media|
  {
    if media != [] {
      var n := |media| - 1;
      TooLargeCountOfKinds(texts[..n], media[..n]);
      assert media == media[..n] + [media[n]];
    }
  }

  /** The counts the renderer shows are the numbers of Failed and TooLarge slots ingestion
      recorded. */
  lemma SlotCountsSurviveStorage(feedId: int, media: seq<Slot>)
    requires NamedByPosition(feedId, media)
    ensures FailCount(SlotTexts(media)) == multiset(media)[Failed]
    ensures TooLargeCount(SlotTexts(media)) == multiset(media)[TooLarge]
  {
    ClassifyRecoversSlot(feedId, media);
    FailCountOfKinds(SlotTexts(media), media);
    TooLargeCountOfKinds(SlotTexts(media), media);
  }

  /** The major type of a MIME string, `mime.split("/")[0]`. */
  function MajorType(mime: string): string
  {
    if mime == [] || mime[0] == '/' then [] else [mime[0]] + MajorType(mime[1..])
  }

  function MediaUrl(baseUrl: string, path: string): string
  {
    baseUrl + "/static/" + path
  }

  /** The widget for a downloaded slot; `guess` stands for `mimetypes.guess_type(url)[0] or ""`. */
  function Widget(baseUrl: string, guess: string -> string, path: string): string
  {
    var url := MediaUrl(baseUrl, path);
    var mime := guess(url);
    var major := MajorType(mime);
    if major == "image" then "<br /><img src=\"" + url + "\" alt=\"media\"/>"
    else if major == "video" then
      "<br /><video controls poster=\"" + url + "\" style=\"max-width:100%;\"><source src=\"" + url
      + "\" type=\"" + mime + "\">Your browser does not support the video tag.</video>"
    else if major == "audio" then "<br /><audio controls><source src=\"" + url + "\" type=\"" + mime + "\"></audio>"
    else "<br /><a href=\"" + url + "\">" + path + "</a>"
  }

  /** What one slot adds to `media_content`: its widget for a file, nothing for a marker. */
  function SlotWidget(baseUrl: string, guess: string -> string): string -> string
  {
    path => if Classify(path).FileSlot? then Widget(baseUrl, guess, path) else ""
  }

  /** The texts `f` gives the slots, concatenated in slot order. */
  function ConcatMap(f: string -> string, media: seq<string>): string
    decreases |media|
  {
    if media == [] then "" else ConcatMap(f, media[..|media| - 1]) + f(media[|media| - 1])
  }

  /** `media_content` after the loop: one widget per file slot, in slot order. */
  function Widgets(media: seq<string>, baseUrl: string, guess: string -> string): string
  {
    ConcatMap(SlotWidget(baseUrl, guess), media)
  }

  lemma {:induction false} ConcatMapDistributes(f: string -> string, a: seq<string>, b: seq<string>)
    ensures ConcatMap(f, a + b) == ConcatMap(f, a) + ConcatMap(f, b)
    decreases |b|
  {
    if b == [] {
      assert a + b == a;
    } else {
      var init := b[..|b| - 1];
      assert (a + b)[..|a + b| - 1] == a + init;
      assert (a + b)[|a + b| - 1] == b[|b| - 1];
      ConcatMapDistributes(f, a, init);
    }
  }

  /** Widgets follow slot order: the widgets of a concatenation are the concatenated widgets. */
  lemma WidgetsInSlotOrder(a: seq<string>, b: seq<string>, baseUrl: string, guess: string -> string)
    ensures Widgets(a + b, baseUrl, guess) == Widgets(a, baseUrl, guess) + Widgets(b, baseUrl, guess)
  {
    ConcatMapDistributes(SlotWidget(baseUrl, guess), a, b);
  }

  /** Without a MIME guess (stored names have no extension) every widget is a link. */
  lemma NoGuessMeansLinks(baseUrl: string, guess: string -> string, path: string)
    requires guess(MediaUrl(baseUrl, path)) == ""
    ensures Widget(baseUrl, guess, path) == "<br /><a href=\"" + MediaUrl(baseUrl, path) + "\">" + path + "</a>"
  {
    assert MajorType("") == "";
  }

  const UnsupportedNotice := "<br /><strong>This message has unsupported attachment. Open Telegram to view it.</strong>"

  function FailureNotice(n: nat): string
  {
    "<br /><strong>" + NatToString(n) + " attachment(s) of this message has failed to download. Open Telegram to view it.</strong>"
  }

  function TooLargeNotice(n: nat): string
  {
    "<br /><strong>" + NatToString(n) + " attachment(s) of this message is too large to download. Open Telegram to view it.</strong>"
  }

  /** Lines 106-111: the notices that apply, in the order unsupported, failed, too large. */
  function Notices(unsupported: bool, failures: nat, tooLarge: nat): string
  {
    (if unsupported then UnsupportedNotice else "")
    + (if failures > 0 then FailureNotice(failures) else "")
    + (if tooLarge > 0 then TooLargeNotice(tooLarge) else "")
  }

  /** Line 105 and the notices: the text with `<br />` for newlines, the widgets, the notices. */
  function Description(e: FeedEntry, baseUrl: string, guess: string -> string): string
  {
    ReplaceNewlines(e.message, "<br />") + Widgets(e.media, baseUrl, guess)
    + Notices(e.hasUnsupportedMedia, FailCount(e.media), TooLargeCount(e.media))
  }

  /** An entry without media or flag is described by its text alone. */
  lemma DescriptionOfPlainText(e: FeedEntry, baseUrl: string, guess: string -> string)
    requires e.media == [] && !e.hasUnsupportedMedia && '\n' !in e.message
    ensures Description(e, baseUrl, guess) == e.message
  {
    ReplaceNewlinesIdentity(e.message, "<br />");
  }

  /** As written, line 75 calls `str.starts_with`, which does not exist: the first slot that is not
      exactly "FAIL" raises AttributeError and the description is never built. */
  function DescriptionAsWritten(e: FeedEntry, baseUrl: string, guess: string -> string): Result<string, RenderError>
  {
    if forall k | 0 <= k < |e.media| :: e.media[k] == "FAIL" then Ok(Description(e, baseUrl, guess))
    else Err(StartsWithError)
  }

  /** The description as written exists exactly when every slot is a failure; any stored file name
      or "TOO_LARGE" aborts it. */
  lemma StartsWithAbortsRender(e: FeedEntry, baseUrl: string, guess: string -> string)
    ensures DescriptionAsWritten(e, baseUrl, guess).Ok? <==> multiset(e.media)["FAIL"] == |e.media|
  {
    AllFailMultiplicity(e.media);
  }

  /** For an ingested entry, the description as written exists only when every media slot is a
      failed download: one downloaded file or one oversized document aborts the render. */
  lemma StoredMediaAbortsRender(feedId: int, d: Draft, baseUrl: string, guess: string -> string)
    requires NamedByPosition(feedId, d.media)
    ensures DescriptionAsWritten(ToEntry(feedId, d), baseUrl, guess).Ok? <==> multiset(d.media)[Failed] == |d.media|
  {
    var e := ToEntry(feedId, d);
    StartsWithAbortsRender(e, baseUrl, guess);
    SlotCountsSurviveStorage(feedId, d.media);
    FailCountIsMultiplicity(e.media);
  }

  lemma {:induction false} AllFailMultiplicity(media: seq<string>)
    ensures (forall k | 0 <= k < |media| :: media[k] == "FAIL") <==> multiset(media)["FAIL"] == |media|
    decreases |media|
  {
    if media != [] {
      var init := media[..|media| - 1];
      AllFailMultiplicity(init);
      assert media == init + [media[|media| - 1]];
      assert multiset(init)["FAIL"] <= |init| by {
        assert multiset(init)["FAIL"] <= |multiset(init)|;
      }
    }
  }

  // ---------------------------------------------------------------------------------------------
  // Documents

  /** Why a render stops: an entry id `parse_feed_entry_id` rejects, or the `starts_with` call. */
  datatype RenderError = EntryIdError | StartsWithError

  datatype Item = Item(guid: string, title: string, description: string, pubDate: int, linkHref: string, linkText: string)

  datatype Channel = Channel(title: string, pubDate: int, linkHref: string, description: string, items: seq<Item>)

  /** The document written to `"{feedId}.xml"`. */
  datatype Document = Document(fileName: string, channel: Channel)

  /** Everything a render depends on besides the feed: the id resolver, `base_url` and the MIME
      guess. */
  datatype Site = Site(resolve: int -> ResolvedId, baseUrl: string, guess: string -> string)

  /** Lines 48-117: one item; its feed id comes from the entry id, parsed again. */
  function ItemFor(site: Site, e: FeedEntry): Result<Item, RenderError>
  {
    match ParseFeedEntryId(e.id)
    case None => Err(EntryIdError)
    case Some((feedId, msgId)) =>
      var url := EntryUrl(site.resolve(feedId), msgId);
      Ok(Item(url, Title(e.message), Description(e, site.baseUrl, site.guess), e.date, url, url))
  }

  /** `ItemFor` for one site, as a function value. */
  function ItemsOf(site: Site): FeedEntry -> Result<Item, RenderError>
  {
    e => ItemFor(site, e)
  }

  /** The items of the entries, in entry order; the first entry that fails aborts the feed. */
  function CollectItems(item: FeedEntry -> Result<Item, RenderError>, entries: seq<FeedEntry>): Result<seq<Item>, RenderError>
    decreases |entries|
  {
    if entries == [] then Ok([])
    else match CollectItems(item, entries[..|entries| - 1])
      case Err(e) => Err(e)
      case Ok(items) =>
        match item(entries[|entries| - 1])
        case Err(e) => Err(e)
        case Ok(it) => Ok(items + [it])
  }

  function RenderItems(site: Site, entries: seq<FeedEntry>): Result<seq<Item>, RenderError>
  {
    CollectItems(ItemsOf(site), entries)
  }

  /** Lines 25-44 and 113-119: the document of a feed with the given items. */
  function FeedDocument(site: Site, f: Feed, items: seq<Item>): Document
  {
    Document(IntToString(f.id) + ".xml", Channel(f.name, f.lastUpdate, FeedUrl(site.resolve(f.id)), f.name, items))
  }

  /** `generate_feed`, with slots read as intended. */
  function RenderFeed(site: Site, f: Feed): Result<Document, RenderError>
  {
    match RenderItems(site, f.entries)
    case Err(e) => Err(e)
    case Ok(items) => Ok(FeedDocument(site, f, items))
  }

  /** Lines 48-117 as written: the entry id is parsed first, then the slot loop calls
      `starts_with` on the first slot that is not "FAIL". */
  function ItemAsWritten(site: Site, e: FeedEntry): Result<Item, RenderError>
  {
    match ParseFeedEntryId(e.id)
    case None => Err(EntryIdError)
    case Some((feedId, msgId)) =>
      match DescriptionAsWritten(e, site.baseUrl, site.guess)
      case Err(err) => Err(err)
      case Ok(description) =>
        var url := EntryUrl(site.resolve(feedId), msgId);
        Ok(Item(url, Title(e.message), description, e.date, url, url))
  }

  function ItemsAsWrittenOf(site: Site): FeedEntry -> Result<Item, RenderError>
  {
    e => ItemAsWritten(site, e)
  }

  /** Different feeds are written to different files. */
  lemma FileNamesDiffer(a: int, b: int)
    requires a != b
    ensures IntToString(a) + ".xml" != IntToString(b) + ".xml"
  {
    if IntToString(a) + ".xml" == IntToString(b) + ".xml" {
      var x, y := IntToString(a), IntToString(b);
      assert x == (x + ".xml")[..|x|] == (y + ".xml")[..|y|] == y;
      IntToStringRoundTrip(a);
      IntToStringRoundTrip(b);
    }
  }

  /** A rendered feed is written to the file named after its id. */
  lemma RenderFeedFileName(site: Site, f: Feed)
    ensures RenderFeed(site, f).Ok? ==> RenderFeed(site, f).value.fileName == IntToString(f.id) + ".xml"
  {
  }

  /** `generate_feed` as written. */
  function RenderFeedAsWritten(site: Site, f: Feed): Result<Document, RenderError>
  {
    match CollectItems(ItemsAsWrittenOf(site), f.entries)
    case Err(e) => Err(e)
    case Ok(items) => Ok(FeedDocument(site, f, items))
  }

  /** The item as written is the intended item when every slot is "FAIL", and otherwise fails
      with StartsWithError once the entry id parses. */
  lemma ItemAsWrittenAgrees(site: Site, e: FeedEntry)
    ensures (forall k | 0 <= k < |e.media| :: e.media[k] == "FAIL") ==> ItemAsWritten(site, e) == ItemFor(site, e)
    ensures (exists k | 0 <= k < |e.media| :: e.media[k] != "FAIL") ==>
              ItemAsWritten(site, e) == if ParseFeedEntryId(e.id).None? then Err(EntryIdError) else Err(StartsWithError)
  {
    var allFail := forall k | 0 <= k < |e.media| :: e.media[k] == "FAIL";
    var d := DescriptionAsWritten(e, site.baseUrl, site.guess);
    assert d == if allFail then Ok(Description(e, site.baseUrl, site.guess)) else Err(StartsWithError);
    if allFail && ParseFeedEntryId(e.id).Some? {
      var (feedId, msgId) := ParseFeedEntryId(e.id).value;
      var url := EntryUrl(site.resolve(feedId), msgId);
      var item := Item(url, Title(e.message), d.value, e.date, url, url);
      assert ItemAsWritten(site, e) == Ok(item);
      assert ItemFor(site, e) == Ok(item);
    }
  }

  /** Two item functions that agree on every entry collect the same items. */
  lemma {:induction false} CollectItemsAgree(item: FeedEntry -> Result<Item, RenderError>, item': FeedEntry -> Result<Item, RenderError>, entries: seq<FeedEntry>)
    requires forall k | 0 <= k < |entries| :: item(entries[k]) == item'(entries[k])
    ensures CollectItems(item, entries) == CollectItems(item', entries)
    decreases |entries|
  {
    if entries != [] {
      var init := entries[..|entries| - 1];
      assert forall k | 0 <= k < |init| :: init[k] == entries[k];
      CollectItemsAgree(item, item', init);
    }
  }

  /** A feed whose slots are all "FAIL" renders as written exactly as intended; a feed with any
      other slot fails to render as written. */
  lemma RenderFeedAsWrittenAgrees(site: Site, f: Feed)
    ensures (forall i, k | 0 <= i < |f.entries| && 0 <= k < |f.entries[i].media| :: f.entries[i].media[k] == "FAIL")
              ==> RenderFeedAsWritten(site, f) == RenderFeed(site, f)
    ensures (exists i, k | 0 <= i < |f.entries| && 0 <= k < |f.entries[i].media| :: f.entries[i].media[k] != "FAIL")
              ==> RenderFeedAsWritten(site, f).Err?
  {
    var written, intended := ItemsAsWrittenOf(site), ItemsOf(site);
    if forall i, k | 0 <= i < |f.entries| && 0 <= k < |f.entries[i].media| :: f.entries[i].media[k] == "FAIL" {
      forall i | 0 <= i < |f.entries| ensures written(f.entries[i]) == intended(f.entries[i]) {
        ItemAsWrittenAgrees(site, f.entries[i]);
      }
      CollectItemsAgree(written, intended, f.entries);
    } else {
      var i, k :| 0 <= i < |f.entries| && 0 <= k < |f.entries[i].media| && f.entries[i].media[k] != "FAIL";
      ItemAsWrittenAgrees(site, f.entries[i]);
      CollectItemsInOrder(written, f.entries);
    }
  }

  lemma {:induction false} CollectItemsInOrder(item: FeedEntry -> Result<Item, RenderError>, entries: seq<FeedEntry>)
    ensures CollectItems(item, entries).Ok? <==> forall k | 0 <= k < |entries| :: item(entries[k]).Ok?
    ensures CollectItems(item, entries).Ok? ==>
      |CollectItems(item, entries).value| == |entries|
      && forall k | 0 <= k < |entries| :: CollectItems(item, entries).value[k] == item(entries[k]).value
    decreases |entries|
  {
    if entries != [] {
      var init, last := entries[..|entries| - 1], entries[|entries| - 1];
      CollectItemsInOrder(item, init);
      assert forall k | 0 <= k < |init| :: init[k] == entries[k];
      if CollectItems(item, init).Err? {
        var k :| 0 <= k < |init| && item(init[k]).Err?;
        assert item(entries[k]).Err?;
      }
    }
  }

  /** A feed renders exactly when each of its entries does, with one item per entry in the same
      order. */
  lemma RenderItemsInOrder(site: Site, entries: seq<FeedEntry>)
    ensures RenderItems(site, entries).Ok? <==> forall k | 0 <= k < |entries| :: ItemFor(site, entries[k]).Ok?
    ensures RenderItems(site, entries).Ok? ==>
      |RenderItems(site, entries).value| == |entries|
      && forall k | 0 <= k < |entries| :: RenderItems(site, entries).value[k] == ItemFor(site, entries[k]).value
  {
    CollectItemsInOrder(ItemsOf(site), entries);
  }

  /** Each item's guid, link href and link text are the same URL, and in a valid store it points
      at the message the entry was built from. */
  lemma ItemLinks(site: Site, feedId: int, msgId: int, e: FeedEntry)
    requires e.id == ToFeedEntryId(feedId, msgId)
    ensures ItemFor(site, e).Ok?
    ensures var item := ItemFor(site, e).value;
      item.guid == item.linkHref == item.linkText == EntryUrl(site.resolve(feedId), msgId)
      && item.title == Title(e.message) && item.pubDate == e.date
  {
    EntryIdRoundTrip(feedId, msgId);
  }

  /** In a valid store every feed renders when slots are read as intended, with the channel's
      title and description the feed name and its pubDate the last update. */
  lemma ValidFeedsRender(site: Site, feeds: map<int, Feed>, id: int)
    requires ValidStore(feeds) && id in feeds
    ensures RenderFeed(site, feeds[id]).Ok?
    ensures var c := RenderFeed(site, feeds[id]).value.channel;
      c.title == c.description == feeds[id].name && c.pubDate == feeds[id].lastUpdate
      && |c.items| == |feeds[id].entries|
  {
    var f := feeds[id];
    forall k | 0 <= k < |f.entries| ensures ItemFor(site, f.entries[k]).Ok? {
      assert f.entries[k] in f.entries;
      assert BelongsTo(f.entries[k], id);
    }
    RenderItemsInOrder(site, f.entries);
  }

  // ---------------------------------------------------------------------------------------------
  // The rendering loops

  /** One turn of the slot loop moves each of its three accumulators by the slot's own share. */
  lemma ScanStep(media: seq<string>, i: nat, baseUrl: string, guess: string -> string)
    requires i < |media|
    ensures FailCount(media[..i + 1]) == FailCount(media[..i]) + (if Classify(media[i]) == FailedSlot then 1 else 0)
    ensures TooLargeCount(media[..i + 1]) == TooLargeCount(media[..i]) + (if Classify(media[i]) == TooLargeSlot then 1 else 0)
    ensures Widgets(media[..i + 1], baseUrl, guess)
         == Widgets(media[..i], baseUrl, guess) + (if Classify(media[i]).FileSlot? then Widget(baseUrl, guess, media[i]) else "")
  {
    assert media[..i + 1][..i] == media[..i];
  }

  /** The slot loop and the description assembly of `generate_feed`. */
  method BuildDescription(e: FeedEntry, baseUrl: string, guess: string -> string) returns (content: string)
    ensures content == Description(e, baseUrl, guess)
  {
    var mediaContent := "";
    var failures := 0;
    var tooLarge := 0;
    for i := 0 to |e.media|
      invariant mediaContent == Widgets(e.media[..i], baseUrl, guess)
      invariant failures == FailCount(e.media[..i])
      invariant tooLarge == TooLargeCount(e.media[..i])
    {
      ScanStep(e.media, i, baseUrl, guess);
      var path := e.media[i];
      if path == "FAIL" {
        failures := failures + 1;
      } else if StartsWith(path, "TOO_LARGE") {
        tooLarge := tooLarge + 1;
      } else {
        mediaContent := mediaContent + Widget(baseUrl, guess, path);
      }
    }
    assert e.media[..|e.media|] == e.media;
    content := ReplaceNewlines(e.message, "<br />") + mediaContent + Notices(e.hasUnsupportedMedia, failures, tooLarge);
  }

  /** Lines 48-117: the item of one entry, with the description built by the slot loop. */
  method BuildItem(site: Site, e: FeedEntry) returns (r: Result<Item, RenderError>)
    ensures r == ItemFor(site, e)
  {
    match ParseFeedEntryId(e.id) {
      case None =>
        return Err(EntryIdError);
      case Some((feedId, msgId)) =>
        var url := EntryUrl(site.resolve(feedId), msgId);
        var description := BuildDescription(e, site.baseUrl, site.guess);
        return Ok(Item(url, Title(e.message), description, e.date, url, url));
    }
  }

  /** One more entry extends the items by its own, or fails the feed with its error. */
  lemma CollectItemsStep(item: FeedEntry -> Result<Item, RenderError>, entries: seq<FeedEntry>, i: nat, items: seq<Item>)
    requires i < |entries| && CollectItems(item, entries[..i]) == Ok(items)
    ensures CollectItems(item, entries[..i + 1])
         == match item(entries[i]) case Ok(it) => Ok(items + [it]) case Err(err) => Err(err)
  {
    assert entries[..i + 1][..i] == entries[..i];
  }

  /** `generate_feed`: the channel, then one item per entry in the stored date-descending order. */
  method GenerateFeed(site: Site, f: Feed) returns (r: Result<Document, RenderError>)
    ensures r == RenderFeed(site, f)
  {
    var items: seq<Item> := [];
    for i := 0 to |f.entries|
      invariant RenderItems(site, f.entries[..i]) == Ok(items)
    {
      var item := BuildItem(site, f.entries[i]);
      CollectItemsStep(ItemsOf(site), f.entries, i, items);
      match item {
        case Err(err) =>
          RenderFailurePersists(site, f.entries, i + 1);
          return Err(err);
        case Ok(it) =>
          items := items + [it];
      }
    }
    assert f.entries[..|f.entries|] == f.entries;
    r := Ok(FeedDocument(site, f, items));
  }

  /** Once an entry fails, the feed fails. */
  lemma {:induction false} RenderFailurePersists(site: Site, entries: seq<FeedEntry>, i: nat)
    requires i <= |entries| && RenderItems(site, entries[..i]).Err?
    ensures RenderItems(site, entries) == RenderItems(site, entries[..i])
    decreases |entries| - i
  {
    if i < |entries| {
      assert entries[..i + 1][..i] == entries[..i];
      RenderFailurePersists(site, entries, i + 1);
    } else {
      assert entries[..i] == entries;
    }
  }

  /** The documents written so far and the exception that stopped `update_feeds_cache`, if any. */
  datatype CacheOutcome = CacheOutcome(docs: seq<Document>, failure: Option<RenderError>)

  /** `generate_feed` for one site, as a function value. */
  function DocumentsOf(site: Site): Feed -> Result<Document, RenderError>
  {
    f => RenderFeed(site, f)
  }

  /** The documents of the feeds in turn, until the first feed that fails. */
  function WriteAll(render: Feed -> Result<Document, RenderError>, feeds: seq<Feed>): CacheOutcome
    decreases |feeds|
  {
    if feeds == [] then CacheOutcome([], None)
    else
      var p := WriteAll(render, feeds[..|feeds| - 1]);
      if p.failure.Some? then p
      else match render(feeds[|feeds| - 1])
        case Err(e) => CacheOutcome(p.docs, Some(e))
        case Ok(doc) => CacheOutcome(p.docs + [doc], None)
  }

  function RenderAll(site: Site, feeds: seq<Feed>): CacheOutcome
  {
    WriteAll(DocumentsOf(site), feeds)
  }

  /** `generate_feed` as written for one site, as a function value. */
  function DocumentsAsWrittenOf(site: Site): Feed -> Result<Document, RenderError>
  {
    f => RenderFeedAsWritten(site, f)
  }

  lemma {:induction false} WriteAllStopsAtFirstFailure(render: Feed -> Result<Document, RenderError>, feeds: seq<Feed>)
    ensures var o := WriteAll(render, feeds);
      && |o.docs| <= |feeds|
      && (forall k | 0 <= k < |o.docs| :: render(feeds[k]) == Ok(o.docs[k]))
      && (o.failure.None? ==> |o.docs| == |feeds|)
      && (o.failure.Some? ==> |o.docs| < |feeds| && render(feeds[|o.docs|]) == Err(o.failure.value))
    decreases |feeds|
  {
    if feeds != [] {
      var init := feeds[..|feeds| - 1];
      WriteAllStopsAtFirstFailure(render, init);
      assert forall k | 0 <= k < |init| :: init[k] == feeds[k];
    }
  }

  /** Without a per-feed guard, the first feed that fails stops the loop: the feeds before it are
      written, it and the ones after it are not. */
  lemma RenderAllStopsAtFirstFailure(site: Site, feeds: seq<Feed>)
    ensures var o := RenderAll(site, feeds);
      && |o.docs| <= |feeds|
      && (forall k | 0 <= k < |o.docs| :: RenderFeed(site, feeds[k]) == Ok(o.docs[k]))
      && (o.failure.None? ==> |o.docs| == |feeds|)
      && (o.failure.Some? ==> |o.docs| < |feeds| && RenderFeed(site, feeds[|o.docs|]) == Err(o.failure.value))
  {
    WriteAllStopsAtFirstFailure(DocumentsOf(site), feeds);
  }

  /** `update_feeds_cache`: every feed in turn, with no per-feed guard. */
  method UpdateFeedsCache(site: Site, feeds: seq<Feed>) returns (docs: seq<Document>, failure: Option<RenderError>)
    ensures CacheOutcome(docs, failure) == RenderAll(site, feeds)
  {
    docs := [];
    for i := 0 to |feeds|
      invariant RenderAll(site, feeds[..i]) == CacheOutcome(docs, None)
    {
      assert feeds[..i + 1][..i] == feeds[..i];
      var r := GenerateFeed(site, feeds[i]);
      match r {
        case Err(e) =>
          failure := Some(e);
          RenderAllFailurePersists(site, feeds, i + 1);
          return;
        case Ok(doc) =>
          docs := docs + [doc];
      }
    }
    assert feeds[..|feeds|] == feeds;
    failure := None;
  }

  lemma {:induction false} RenderAllFailurePersists(site: Site, feeds: seq<Feed>, i: nat)
    requires i <= |feeds| && RenderAll(site, feeds[..i]).failure.Some?
    ensures RenderAll(site, feeds) == RenderAll(site, feeds[..i])
    decreases |feeds| - i
  {
    if i < |feeds| {
      assert feeds[..i + 1][..i] == feeds[..i];
      RenderAllFailurePersists(site, feeds, i + 1);
    } else {
      assert feeds[..i] == feeds;
    }
  }
}
