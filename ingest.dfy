/** Turning one batch of Telegram messages into feed entries
    (telegram_to_rss/poll_telegram.py, `TelegramPoller._process_new_dialog_messages` and
    `TelegramPoller._download_media`). */
module Ingest {
  import opened Wrappers
  import opened Seqs
  import opened Text
  import opened EntryIds

  /** A document attachment: its byte size and MIME type, each None when Telegram did not fill
      it in (then `document.mime_type.split` or `document.size > max_media_size` raises). */
  datatype DocumentRef = DocumentRef(size: Option<int>, mimeType: Option<string>)

  /** Whether lines 170-172 can read the document's MIME type and size without raising. */
  predicate Readable(d: DocumentRef)
  {
    d.size.Some? && d.mimeType.Some?
  }

  /** The message carries a readable document within `max_media_size`. */
  predicate SmallDocument(b: Batch, m: Message)
  {
    m.document.Some? && Readable(m.document.value) && m.document.value.size.value <= b.maxMediaSize
  }

  /** The message carries a readable document over `max_media_size`. */
  predicate LargeDocument(b: Batch, m: Message)
  {
    m.document.Some? && Readable(m.document.value) && m.document.value.size.value > b.maxMediaSize
  }

  /** The fields of a Telegram message the ingestion reads. */
  datatype Message = Message(
    id: int,
    text: Option<string>,
    date: int,
    groupedId: Option<int>,
    hasPhoto: bool,
    document: Option<DocumentRef>,
    hasUnsupportedMedia: bool)

  datatype MediaKind = Photo | File

  /** What one media slot of an entry records. */
  datatype Slot = Downloaded(name: string) | Failed | TooLarge

  /** The string the source stores in the slot: the file name, "FAIL" or "TOO_LARGE". */
  function SlotText(s: Slot): string
  {
    match s
    case Downloaded(name) => name
    case Failed => "FAIL"
    case TooLarge => "TOO_LARGE"
  }

  function SlotTexts(media: seq<Slot>): (r: seq<string>)
    ensures |r| == |media| && forall k | 0 <= k < |media| :: r[k] == SlotText(media[k])
  {
    seq(|media|, k requires 0 <= k < |media| => SlotText(media[k]))
  }

  /** Everything one batch depends on besides the messages: the feed id, `max_media_size`, whether
      a download to a given file name succeeds, and whether handling a message raises an
      unexpected exception before it is admitted (lines 139-161). A raise after admission comes
      from the message's document (see Readable). */
  datatype Batch = Batch(
    feedId: int,
    maxMediaSize: int,
    downloadOk: (MediaKind, string) -> bool,
    raises: Message -> bool)

  /** An entry under construction: the group head with the accumulated text and media. */
  datatype Draft = Draft(
    id: int,
    date: int,
    text: string,
    groupedId: Option<int>,
    media: seq<Slot>,
    hasUnsupportedMedia: bool)

  /** The FeedEntry record the batch produces. */
  datatype FeedEntry = FeedEntry(
    id: string,
    message: string,
    date: int,
    media: seq<string>,
    hasUnsupportedMedia: bool)

  /** One `_download_media` call: the slot it appends (the intended behaviour, see
      AcquireAsWritten for the photo branch as written). */
  function Acquire(b: Batch, kind: MediaKind, name: string): (s: Slot)
  {
    if b.downloadOk(kind, name) then Downloaded(name) else Failed
  }

  /** The slot `_download_media` appends as written: for a photo it calls the list
      `dialog_message.downloaded_media` as if it were the download method, which raises TypeError,
      caught as a failed download. */
  function AcquireAsWritten(b: Batch, kind: MediaKind, name: string): (s: Slot)
  {
    if kind == Photo then Failed else Acquire(b, kind, name)
  }

  /** The source's photo branch never succeeds, even when the download would. */
  lemma PhotoDownloadAsWrittenFails(b: Batch, name: string)
    requires b.downloadOk(Photo, name)
    ensures AcquireAsWritten(b, Photo, name) == Failed
    ensures Acquire(b, Photo, name) == Downloaded(name)
  {
  }

  /** The batch as written is the intended batch with an oracle that refuses every photo. */
  function PhotosRefused(b: Batch): Batch
  {
    b.(downloadOk := (k: MediaKind, name: string) => k != Photo && b.downloadOk(k, name))
  }

  lemma AsWrittenIsPhotosRefused(b: Batch, kind: MediaKind, name: string)
    ensures AcquireAsWritten(b, kind, name) == Acquire(PhotosRefused(b), kind, name)
  {
  }

  /** `_download_media`: appends exactly one slot to the head, the file name
      `"{feedId}--{msgId}-{k}"` (k the head's slot count before the call, msgId the current
      message's) or "FAIL"; it never raises. */
  method DownloadMedia(b: Batch, m: Message, kind: MediaKind, head: Draft) returns (r: Draft)
    ensures r == head.(media := head.media + [Acquire(b, kind, MediaName(b.feedId, m.id, |head.media|))])
    ensures r.media[|head.media|] in {Downloaded(MediaName(b.feedId, m.id, |head.media|)), Failed}
  {
    var name := MediaName(b.feedId, m.id, |head.media|);
    if b.downloadOk(kind, name) {
      r := head.(media := head.media + [Downloaded(name)]);
    } else {
      r := head.(media := head.media + [Failed]);
    }
  }

  /** Whether the message reaches the grouping step: no exception and a text that is not None. */
  predicate Handled(b: Batch, m: Message)
  {
    !b.raises(m) && m.text.Some?
  }

  /** A kept message opens a new entry unless it carries the grouped id of the last entry. */
  predicate StartsEntry(acc: seq<Draft>, m: Message)
  {
    m.groupedId.None? || acc == [] || m.groupedId != acc[|acc| - 1].groupedId
  }

  /** Lines 153-161: append the message as a new head, or let it lengthen the head's text. */
  function Admit(acc: seq<Draft>, m: Message): (r: seq<Draft>)
    requires m.text.Some?
    ensures |r| >= 1
  {
    if StartsEntry(acc, m) then
      acc + [Draft(m.id, m.date, m.text.value, m.groupedId, [], m.hasUnsupportedMedia)]
    else
      var head := acc[|acc| - 1];
      acc[..|acc| - 1] + [if |m.text.value| > |head.text| then head.(text := m.text.value) else head]
  }

  /** The slots one message appends to its head's media (lines 165-176). A document that is not
      Readable raises at line 170 or 172, after the message was admitted and its photo slot
      appended; the handler at lines 178-180 keeps both and adds no document slot. */
  function MessageMedia(b: Batch, m: Message, media: seq<Slot>): seq<Slot>
  {
    var afterPhoto :=
      if m.hasPhoto then media + [Acquire(b, Photo, MediaName(b.feedId, m.id, |media|))] else media;
    match m.document
    case None => afterPhoto
    case Some(d) =>
      if !Readable(d) then afterPhoto
      else if d.size.value > b.maxMediaSize then afterPhoto + [TooLarge]
      else afterPhoto + [Acquire(b, File, MediaName(b.feedId, m.id, |afterPhoto|))]
  }

  /** One iteration of the loop at lines 137-180. */
  function Step(b: Batch, acc: seq<Draft>, m: Message): seq<Draft>
  {
    if !Handled(b, m) then acc
    else
      var admitted := Admit(acc, m);
      var head := admitted[|admitted| - 1];
      admitted[..|admitted| - 1] + [head.(media := MessageMedia(b, m, head.media))]
  }

  /** The heads after the whole batch: a fold of Step over the messages. */
  function Ingested(b: Batch, msgs: seq<Message>): seq<Draft>
    decreases |msgs|
  {
    if msgs == [] then [] else Step(b, Ingested(b, msgs[..|msgs| - 1]), msgs[|msgs| - 1])
  }

  function ToEntry(feedId: int, d: Draft): FeedEntry
  {
    FeedEntry(ToFeedEntryId(feedId, d.id), d.text, d.date, SlotTexts(d.media), d.hasUnsupportedMedia)
  }

  function ToEntries(feedId: int, ds: seq<Draft>): (r: seq<FeedEntry>)
    ensures |r| == |ds| && forall k | 0 <= k < |ds| :: r[k] == ToEntry(feedId, ds[k])
  {
    seq(|ds|, k requires 0 <= k < |ds| => ToEntry(feedId, ds[k]))
  }

  /** One more draft converted is one more entry appended. */
  lemma ToEntriesStep(feedId: int, ds: seq<Draft>, j: nat)
    requires j < |ds|
    ensures ToEntries(feedId, ds[..j + 1]) == ToEntries(feedId, ds[..j]) + [ToEntry(feedId, ds[j])]
  {
    var r, p := ToEntries(feedId, ds[..j + 1]), ToEntries(feedId, ds[..j]) + [ToEntry(feedId, ds[j])];
    assert |r| == |p|;
    forall k | 0 <= k < |r| ensures r[k] == p[k] {
      assert ds[..j + 1][k] == ds[k];
    }
  }

  /** Lines 153-161: the message becomes the new head or lengthens the head's text. */
  method AdmitMessage(filtered: seq<Draft>, m: Message) returns (r: seq<Draft>)
    requires m.text.Some?
    ensures r == Admit(filtered, m)
  {
    var text := m.text.value;
    r := filtered;
    if StartsEntry(r, m) {
      r := r + [Draft(m.id, m.date, text, m.groupedId, [], m.hasUnsupportedMedia)];
    } else if |text| > |r[|r| - 1].text| {
      r := r[|r| - 1 := r[|r| - 1].(text := text)];
    }
  }

  /** Lines 165-176: the photo, then the document, each appending one slot to the head. */
  method AttachMedia(b: Batch, m: Message, head: Draft) returns (r: Draft)
    ensures r == head.(media := MessageMedia(b, m, head.media))
  {
    r := head;
    if m.hasPhoto {
      r := DownloadMedia(b, m, Photo, r);
    }
    match m.document {
      case None =>
      case Some(d) =>
        if Readable(d) {
          if d.size.value > b.maxMediaSize {
            r := r.(media := r.media + [TooLarge]);
          } else {
            r := DownloadMedia(b, m, File, r);
          }
        }
    }
  }

  /** The body of the loop at lines 148-176 for a message that raises nothing and has text. */
  method HandleMessage(b: Batch, filtered: seq<Draft>, m: Message) returns (r: seq<Draft>)
    requires Handled(b, m)
    ensures r == Step(b, filtered, m)
  {
    r := AdmitMessage(filtered, m);
    var head := AttachMedia(b, m, r[|r| - 1]);
    r := r[|r| - 1 := head];
    assert r == r[..|r| - 1] + [head];
  }

  /** `_process_new_dialog_messages`: the loop over the batch, then one FeedEntry per head. */
  method ProcessNewDialogMessages(b: Batch, msgs: seq<Message>) returns (entries: seq<FeedEntry>)
    ensures entries == ToEntries(b.feedId, Ingested(b, msgs))
  {
    var filtered: seq<Draft> := [];
    var i := 0;
    while i < |msgs|
      invariant 0 <= i <= |msgs|
      invariant filtered == Ingested(b, msgs[..i])
    {
      assert msgs[..i + 1][..i] == msgs[..i];
      if !b.raises(msgs[i]) && msgs[i].text.Some? {
        filtered := HandleMessage(b, filtered, msgs[i]);
      }
      i := i + 1;
    }
    assert msgs[..i] == msgs;
    entries := [];
    var j := 0;
    while j < |filtered|
      invariant 0 <= j <= |filtered|
      invariant entries == ToEntries(b.feedId, filtered[..j])
    {
      ToEntriesStep(b.feedId, filtered, j);
      entries := entries + [ToEntry(b.feedId, filtered[j])];
      j := j + 1;
    }
    assert filtered[..j] == filtered;
  }

  // ---------------------------------------------------------------------------------------------
  // Properties of the fold

  /** The messages of a batch that reach the grouping step, in order. */
  function HandledOnly(b: Batch, msgs: seq<Message>): seq<Message>
    decreases |msgs|
  {
    if msgs == [] then []
    else HandledOnly(b, msgs[..|msgs| - 1]) + (if Handled(b, msgs[|msgs| - 1]) then [msgs[|msgs| - 1]] else [])
  }

  lemma {:induction false} HandledOnlyConcat(b: Batch, x: seq<Message>, y: seq<Message>)
    ensures HandledOnly(b, x + y) == HandledOnly(b, x) + HandledOnly(b, y)
    decreases |y|
  {
    if y == [] {
      assert x + y == x;
    } else {
      var y' := y[..|y| - 1];
      assert (x + y)[..|x + y| - 1] == x + y';
      assert (x + y)[|x + y| - 1] == y[|y| - 1];
      HandledOnlyConcat(b, x, y');
    }
  }

  /** Messages without text, and messages whose handling raises, leave no trace: the batch yields
      what its handled messages alone yield. */
  lemma {:induction false} IngestedIgnoresUnhandled(b: Batch, msgs: seq<Message>)
    ensures Ingested(b, msgs) == Ingested(b, HandledOnly(b, msgs))
    decreases |msgs|
  {
    if msgs != [] {
      var init, m := msgs[..|msgs| - 1], msgs[|msgs| - 1];
      IngestedIgnoresUnhandled(b, init);
      var h := HandledOnly(b, init);
      if Handled(b, m) {
        assert HandledOnly(b, msgs) == h + [m];
        assert (h + [m])[..|h + [m]| - 1] == h;
        assert Ingested(b, h + [m]) == Step(b, Ingested(b, h), m);
      } else {
        assert HandledOnly(b, msgs) == h + [];
        assert h + [] == h;
      }
    }
  }

  /** An exception while handling one message (or a message without text) does not stop the
      batch: the later messages are processed exactly as if that message had not been there. */
  lemma UnhandledMessageIsSkipped(b: Batch, before: seq<Message>, m: Message, after: seq<Message>)
    requires !Handled(b, m)
    ensures Ingested(b, before + [m] + after) == Ingested(b, before + after)
  {
    HandledOnlyConcat(b, before + [m], after);
    HandledOnlyConcat(b, before, [m]);
    HandledOnlyConcat(b, before, after);
    assert [m][..0] == [];
    assert HandledOnly(b, [m]) == [];
    assert HandledOnly(b, before) + [] == HandledOnly(b, before);
    IngestedIgnoresUnhandled(b, before + [m] + after);
    IngestedIgnoresUnhandled(b, before + after);
  }

  /** The entry was opened by this message and still carries its id, date, text and flag. */
  predicate OpenedBy(d: Draft, m: Message)
  {
    d.id == m.id && d.date == m.date && m.text == Some(d.text) && d.hasUnsupportedMedia == m.hasUnsupportedMedia
  }

  /** Without grouped ids every handled message becomes its own entry, in input order. */
  lemma {:induction false} UngroupedMessagesMapOneToOne(b: Batch, msgs: seq<Message>)
    requires forall k | 0 <= k < |msgs| :: Handled(b, msgs[k]) && msgs[k].groupedId.None?
    ensures |Ingested(b, msgs)| == |msgs|
    ensures forall k | 0 <= k < |msgs| :: OpenedBy(Ingested(b, msgs)[k], msgs[k])
    decreases |msgs|
  {
    if msgs != [] {
      var init, m := msgs[..|msgs| - 1], msgs[|msgs| - 1];
      UngroupedMessagesMapOneToOne(b, init);
      var acc := Ingested(b, init);
      var r := acc + [Draft(m.id, m.date, m.text.value, m.groupedId, MessageMedia(b, m, []), m.hasUnsupportedMedia)];
      assert Ingested(b, msgs) == r by {
        assert Handled(b, m) && StartsEntry(acc, m);
        StepOpensEntryExactly(b, acc, m);
      }
      SplitLast(msgs);
      OpenedByAppend(acc, init, r[|acc|], m);
    }
  }

  /** Entries opened pairwise by messages stay so when one more pair is appended. */
  lemma OpenedByAppend(ds: seq<Draft>, msgs: seq<Message>, d: Draft, m: Message)
    requires |ds| == |msgs| && forall k | 0 <= k < |msgs| :: OpenedBy(ds[k], msgs[k])
    requires OpenedBy(d, m)
    ensures forall k | 0 <= k < |msgs| + 1 :: OpenedBy((ds + [d])[k], (msgs + [m])[k])
  {
    forall k | 0 <= k < |msgs| + 1 ensures OpenedBy((ds + [d])[k], (msgs + [m])[k]) {
      if k < |msgs| {
        assert (ds + [d])[k] == ds[k] && (msgs + [m])[k] == msgs[k];
      }
    }
  }

  /** The number of slots one message contributes: one per photo, one per readable document. */
  function MessageSlotCount(m: Message): nat
  {
    (if m.hasPhoto then 1 else 0) + (if m.document.Some? && Readable(m.document.value) then 1 else 0)
  }

  function SlotCount(msgs: seq<Message>): nat
    decreases |msgs|
  {
    if msgs == [] then 0 else SlotCount(msgs[..|msgs| - 1]) + MessageSlotCount(msgs[|msgs| - 1])
  }

  /** Each message appends exactly one slot per attachment after the slots already there; an
      oversized document appends TooLarge. */
  lemma MessageMediaShape(b: Batch, m: Message, media: seq<Slot>)
    ensures var r := MessageMedia(b, m, media);
            |r| == |media| + MessageSlotCount(m) && r[..|media|] == media
    ensures LargeDocument(b, m) ==>
              MessageMedia(b, m, media)[|media| + MessageSlotCount(m) - 1] == TooLarge
  {
    var afterPhoto :=
      if m.hasPhoto then media + [Acquire(b, Photo, MediaName(b.feedId, m.id, |media|))] else media;
    assert afterPhoto[..|media|] == media;
  }

  /** A document over `max_media_size` triggers no download: the outcome is the same whatever
      the download oracle says. */
  lemma OversizedDocumentIsNotDownloaded(b: Batch, m: Message, media: seq<Slot>, ok: (MediaKind, string) -> bool)
    requires !m.hasPhoto && LargeDocument(b, m)
    ensures MessageMedia(b, m, media) == MessageMedia(b.(downloadOk := ok), m, media) == media + [TooLarge]
  {
  }

  /** Every downloaded slot is named after its own position: the slot at position k is the file
      `"{feedId}--{msgId}-{k}"` of some message. */
  ghost predicate NamedByPosition(feedId: int, media: seq<Slot>)
  {
    forall k | 0 <= k < |media| && media[k].Downloaded? ::
      exists msgId :: media[k].name == MediaName(feedId, msgId, k)
  }

  lemma MessageMediaNamedByPosition(b: Batch, m: Message, media: seq<Slot>)
    requires NamedByPosition(b.feedId, media)
    ensures NamedByPosition(b.feedId, MessageMedia(b, m, media))
  {
    var afterPhoto :=
      if m.hasPhoto then media + [Acquire(b, Photo, MediaName(b.feedId, m.id, |media|))] else media;
    assert NamedByPosition(b.feedId, afterPhoto) by {
      forall k | 0 <= k < |afterPhoto| && afterPhoto[k].Downloaded?
        ensures exists msgId :: afterPhoto[k].name == MediaName(b.feedId, msgId, k)
      {
        if k == |media| {
          assert afterPhoto[k].name == MediaName(b.feedId, m.id, k);
        } else {
          assert afterPhoto[k] == media[k];
        }
      }
    }
    var r := MessageMedia(b, m, media);
    forall k | 0 <= k < |r| && r[k].Downloaded?
      ensures exists msgId :: r[k].name == MediaName(b.feedId, msgId, k)
    {
      if k == |afterPhoto| {
        assert r[k].name == MediaName(b.feedId, m.id, k);
      } else {
        assert r[k] == afterPhoto[k];
      }
    }
  }

  lemma {:induction false} IngestedNamedByPosition(b: Batch, msgs: seq<Message>)
    ensures forall d | d in Ingested(b, msgs) :: NamedByPosition(b.feedId, d.media)
    decreases |msgs|
  {
    if msgs != [] {
      var init, m := msgs[..|msgs| - 1], msgs[|msgs| - 1];
      IngestedNamedByPosition(b, init);
      StepNamedByPosition(b, Ingested(b, init), m);
    }
  }

  /** One Step keeps every entry's downloaded slots named after their positions. */
  lemma StepNamedByPosition(b: Batch, acc: seq<Draft>, m: Message)
    requires forall d | d in acc :: NamedByPosition(b.feedId, d.media)
    ensures forall d | d in Step(b, acc, m) :: NamedByPosition(b.feedId, d.media)
  {
    if Handled(b, m) {
      var admitted := Admit(acc, m);
      var head := admitted[|admitted| - 1];
      assert forall d | d in admitted :: d in acc || d.media == [] || d == head;
      if head.media != [] {
        assert head in acc || (!StartsEntry(acc, m) && head.media == acc[|acc| - 1].media);
        assert NamedByPosition(b.feedId, head.media);
      }
      MessageMediaNamedByPosition(b, m, head.media);
      assert forall d | d in admitted[..|admitted| - 1] :: d in acc;
    }
  }

  /** The length of a message's text (0 when it has none). */
  function TextLength(m: Message): nat
  {
    if m.text.Some? then |m.text.value| else 0
  }

  /** `j` is the first position holding a longest text. */
  predicate FirstLongest(msgs: seq<Message>, j: int)
  {
    && 0 <= j < |msgs|
    && (forall k | 0 <= k < |msgs| :: TextLength(msgs[k]) <= TextLength(msgs[j]))
    && (forall k | 0 <= k < j :: TextLength(msgs[k]) < TextLength(msgs[j]))
  }

  /** Consecutive handled messages sharing the grouped id `g`. */
  predicate OneGroup(b: Batch, msgs: seq<Message>, g: int)
  {
    |msgs| >= 1 && forall k | 0 <= k < |msgs| :: Handled(b, msgs[k]) && msgs[k].groupedId == Some(g)
  }

  /** The last entry so far does not belong to group `g`, so a member of `g` opens a new entry. */
  predicate OpensGroup(acc: seq<Draft>, g: int)
  {
    acc == [] || acc[|acc| - 1].groupedId != Some(g)
  }

  /** A message's text ("" when it has none). */
  function TextOf(m: Message): string
  {
    if m.text.Some? then m.text.value else ""
  }

  /** The text a group's entry ends with: the first member's, replaced by a later member's only
      when that one is strictly longer. */
  function GroupText(msgs: seq<Message>): string
    decreases |msgs|
  {
    if |msgs| <= 1 then (if msgs == [] then "" else TextOf(msgs[0]))
    else
      var t := GroupText(msgs[..|msgs| - 1]);
      var m := msgs[|msgs| - 1];
      if TextLength(m) > |t| then TextOf(m) else t
  }

  /** The slots of a group's entry: MessageMedia of every member in turn, starting from no slots. */
  function GroupMedia(b: Batch, msgs: seq<Message>): seq<Slot>
    decreases |msgs|
  {
    if msgs == [] then [] else MessageMedia(b, msgs[|msgs| - 1], GroupMedia(b, msgs[..|msgs| - 1]))
  }

  /** The entry a whole group yields: the first member's id, date and flag, GroupText, GroupMedia. */
  function GroupEntry(b: Batch, msgs: seq<Message>, g: int): Draft
    requires |msgs| >= 1
  {
    Draft(msgs[0].id, msgs[0].date, GroupText(msgs), Some(g), GroupMedia(b, msgs), msgs[0].hasUnsupportedMedia)
  }

  /** Consecutive messages sharing a grouped id that follow an entry of another group merge into
      one new entry appended after the earlier ones; nothing before it changes. */
  lemma {:induction false} GroupMergesIntoOneEntry(b: Batch, pre: seq<Message>, grp: seq<Message>, g: int)
    requires OneGroup(b, grp, g) && OpensGroup(Ingested(b, pre), g)
    ensures Ingested(b, pre + grp) == Ingested(b, pre) + [GroupEntry(b, grp, g)]
    decreases |grp|
  {
    var init, m := grp[..|grp| - 1], grp[|grp| - 1];
    var p := Ingested(b, pre);
    assert pre + grp == (pre + init) + [m] by {
      SplitLast(grp);
    }
    IngestedSnoc(b, pre + init, m);
    if init == [] {
      assert pre + init == pre;
      StepOpensEntryExactly(b, p, m);
      GroupEntryOfOne(b, grp, g);
    } else {
      assert OneGroup(b, init, g);
      GroupMergesIntoOneEntry(b, pre, init, g);
      StepMergesIntoHeadExactly(b, p, GroupEntry(b, init, g), m);
      GroupEntrySnoc(b, grp, g);
    }
  }

  lemma GroupEntryOfOne(b: Batch, grp: seq<Message>, g: int)
    requires |grp| == 1 && grp[0].text.Some?
    ensures var m := grp[0];
            GroupEntry(b, grp, g) == Draft(m.id, m.date, m.text.value, Some(g), MessageMedia(b, m, []), m.hasUnsupportedMedia)
  {
    assert grp[..0] == [];
    assert GroupMedia(b, grp[..0]) == [];
    assert GroupText(grp) == TextOf(grp[0]);
  }

  /** One more member of a group updates the group's entry as a merging Step does. */
  lemma GroupEntrySnoc(b: Batch, grp: seq<Message>, g: int)
    requires |grp| >= 2
    ensures var d, m := GroupEntry(b, grp[..|grp| - 1], g), grp[|grp| - 1];
            GroupEntry(b, grp, g) ==
              d.(text := if TextLength(m) > |d.text| then TextOf(m) else d.text, media := MessageMedia(b, m, d.media))
  {
    assert grp[..|grp| - 1][0] == grp[0];
  }

  /** A group's slots are one slot per photo and one per readable document of every member, and
      each member's slots follow those of the members before it. */
  lemma {:induction false} GroupMediaShape(b: Batch, msgs: seq<Message>)
    ensures |GroupMedia(b, msgs)| == SlotCount(msgs)
    ensures msgs != [] ==> GroupMedia(b, msgs)[..SlotCount(msgs[..|msgs| - 1])] == GroupMedia(b, msgs[..|msgs| - 1])
    decreases |msgs|
  {
    if msgs != [] {
      var init := msgs[..|msgs| - 1];
      GroupMediaShape(b, init);
      MessageMediaShape(b, msgs[|msgs| - 1], GroupMedia(b, init));
    }
  }

  /** GroupText is the text of the first member holding a longest text. */
  lemma {:induction false} GroupTextIsFirstLongest(msgs: seq<Message>)
    requires |msgs| >= 1 && forall k | 0 <= k < |msgs| :: msgs[k].text.Some?
    ensures exists j :: FirstLongest(msgs, j) && msgs[j].text == Some(GroupText(msgs))
    decreases |msgs|
  {
    if |msgs| == 1 {
      assert FirstLongest(msgs, 0);
    } else {
      var init, m := msgs[..|msgs| - 1], msgs[|msgs| - 1];
      GroupTextIsFirstLongest(init);
      var j :| FirstLongest(init, j) && init[j].text == Some(GroupText(init));
      assert init[j] == msgs[j];
      FirstLongestExtend(msgs, j);
      assert GroupText(msgs) == if TextLength(m) > |GroupText(init)| then TextOf(m) else GroupText(init);
      var j' := if TextLength(m) > TextLength(msgs[j]) then |init| else j;
      assert FirstLongest(msgs, j') && msgs[j'].text == Some(GroupText(msgs));
    }
  }

  /** The merged entry's text is the first-encountered longest text of the group, and its slots are
      those of all members: a member's text replaces it only when strictly longer. */
  lemma GroupKeepsFirstLongestText(b: Batch, pre: seq<Message>, grp: seq<Message>, g: int)
    requires OneGroup(b, grp, g) && OpensGroup(Ingested(b, pre), g)
    ensures var p, r := Ingested(b, pre), Ingested(b, pre + grp);
            && |r| == |p| + 1 && r[..|p|] == p
            && (exists j :: FirstLongest(grp, j) && grp[j].text == Some(r[|p|].text))
            && |r[|p|].media| == SlotCount(grp)
  {
    GroupMergesIntoOneEntry(b, pre, grp, g);
    GroupTextIsFirstLongest(grp);
    GroupMediaShape(b, grp);
    var p := Ingested(b, pre);
    assert (p + [GroupEntry(b, grp, g)])[..|p|] == p;
  }

  /** Appending a message moves the first longest position only to a strictly longer text. */
  lemma FirstLongestExtend(msgs: seq<Message>, j: int)
    requires |msgs| >= 1 && FirstLongest(msgs[..|msgs| - 1], j)
    ensures var last := |msgs| - 1;
            FirstLongest(msgs, if TextLength(msgs[last]) > TextLength(msgs[j]) then last else j)
  {
    var init := msgs[..|msgs| - 1];
    assert forall k | 0 <= k < |init| :: msgs[k] == init[k];
  }

  /** A handled message that opens an entry appends it with its own slots. */
  lemma StepOpensEntry(b: Batch, acc: seq<Draft>, m: Message)
    requires Handled(b, m) && StartsEntry(acc, m)
    ensures var r := Step(b, acc, m);
            |r| == |acc| + 1 && r[..|acc|] == acc
            && OpenedBy(r[|acc|], m) && r[|acc|].groupedId == m.groupedId
            && |r[|acc|].media| == MessageSlotCount(m)
  {
    MessageMediaShape(b, m, []);
    var r := Step(b, acc, m);
    assert r[..|acc|] == acc;
  }

  /** A handled message carrying the grouped id of the last entry merges into it; the entries
      before it are untouched. */
  lemma StepMergesIntoHead(b: Batch, acc: seq<Draft>, d: Draft, m: Message)
    requires Handled(b, m) && m.groupedId.Some? && m.groupedId == d.groupedId
    ensures var r := Step(b, acc + [d], m);
            && |r| == |acc| + 1 && r[..|acc|] == acc
            && r[|acc|].id == d.id && r[|acc|].date == d.date && r[|acc|].groupedId == d.groupedId
            && r[|acc|].hasUnsupportedMedia == d.hasUnsupportedMedia
            && r[|acc|].text == (if TextLength(m) > |d.text| then m.text.value else d.text)
            && |r[|acc|].media| == |d.media| + MessageSlotCount(m)
            && r[|acc|].media[..|d.media|] == d.media
  {
    StepMergesIntoHeadExactly(b, acc, d, m);
    MessageMediaShape(b, m, d.media);
    var d' := d.(text := if TextLength(m) > |d.text| then m.text.value else d.text,
                 media := MessageMedia(b, m, d.media));
    assert (acc + [d'])[..|acc|] == acc;
  }

  lemma StepOpensEntryExactly(b: Batch, acc: seq<Draft>, m: Message)
    requires Handled(b, m) && StartsEntry(acc, m)
    ensures Step(b, acc, m) ==
      acc + [Draft(m.id, m.date, m.text.value, m.groupedId, MessageMedia(b, m, []), m.hasUnsupportedMedia)]
  {
  }

  lemma StepMergesIntoHeadExactly(b: Batch, acc: seq<Draft>, d: Draft, m: Message)
    requires Handled(b, m) && m.groupedId.Some? && m.groupedId == d.groupedId
    ensures Step(b, acc + [d], m) ==
      acc + [d.(text := if TextLength(m) > |d.text| then m.text.value else d.text,
                media := MessageMedia(b, m, d.media))]
  {
    var a := acc + [d];
    assert !StartsEntry(a, m);
    assert a[..|a| - 1] == acc;
  }

  /** The photo slot a message appends after `media`, if it has a photo (lines 165-166). */
  function PhotoSlots(b: Batch, m: Message, media: seq<Slot>): seq<Slot>
  {
    if m.hasPhoto then [Acquire(b, Photo, MediaName(b.feedId, m.id, |media|))] else []
  }

  /** A message whose document cannot be read raises only after it was admitted: it still opens an
      entry, or lengthens the last entry's text, and keeps its photo slot; only the document's
      slot is missing. */
  lemma RaiseAfterAdmissionKeepsMessage(b: Batch, acc: seq<Draft>, m: Message)
    requires Handled(b, m) && m.document.Some? && !Readable(m.document.value)
    ensures var r := Step(b, acc, m);
            StartsEntry(acc, m) ==>
              && |r| == |acc| + 1 && r[..|acc|] == acc && OpenedBy(r[|acc|], m)
              && r[|acc|].media == PhotoSlots(b, m, [])
    ensures var r := Step(b, acc, m);
            !StartsEntry(acc, m) ==>
              var h := acc[|acc| - 1];
              && |r| == |acc| && r[..|acc| - 1] == acc[..|acc| - 1]
              && r[|acc| - 1].id == h.id
              && r[|acc| - 1].text == (if TextLength(m) > |h.text| then m.text.value else h.text)
              && r[|acc| - 1].media == h.media + PhotoSlots(b, m, h.media)
  {
    var r := Step(b, acc, m);
    if StartsEntry(acc, m) {
      StepOpensEntryExactly(b, acc, m);
      assert r[..|acc|] == acc;
    } else {
      var init, h := acc[..|acc| - 1], acc[|acc| - 1];
      assert acc == init + [h];
      StepMergesIntoHeadExactly(b, init, h, m);
      assert r[..|acc| - 1] == init;
    }
  }

  /** Messages (grouped 5, "a"), (grouped 5, "longer b"), (grouped 6, "c"), the first two each
      with one document under the size cap: two entries, the first with id and date of the first
      message, text "longer b" and the two documents' slots in order. */
  lemma GroupExample(b: Batch, m1: Message, m2: Message, m3: Message)
    requires Handled(b, m1) && Handled(b, m2) && Handled(b, m3)
    requires m1.text == Some("a") && m2.text == Some("longer b") && m3.text == Some("c")
    requires m1.groupedId == m2.groupedId == Some(5) && m3.groupedId == Some(6)
    requires !m1.hasPhoto && !m2.hasPhoto && !m3.hasPhoto && m3.document.None?
    requires SmallDocument(b, m1) && SmallDocument(b, m2)
    ensures var r := Ingested(b, [m1, m2, m3]);
      && |r| == 2
      && r[0].id == m1.id && r[0].date == m1.date && r[0].text == "longer b"
      && r[0].media == [Acquire(b, File, MediaName(b.feedId, m1.id, 0)), Acquire(b, File, MediaName(b.feedId, m2.id, 1))]
      && r[1].id == m3.id && r[1].text == "c" && r[1].media == []
  {
    var d2 := GroupExampleHead(b, m1, m2);
    IngestedSnoc(b, [m1, m2], m3);
    AppendLiterals(m1, m2, m3);
    assert StartsEntry([d2], m3);
    StepOpensEntryExactly(b, [d2], m3);
  }

  /** The first two messages of GroupExample, merged. */
  lemma GroupExampleHead(b: Batch, m1: Message, m2: Message) returns (d2: Draft)
    requires Handled(b, m1) && Handled(b, m2)
    requires m1.text == Some("a") && m2.text == Some("longer b")
    requires m1.groupedId == m2.groupedId == Some(5)
    requires !m1.hasPhoto && !m2.hasPhoto
    requires SmallDocument(b, m1) && SmallDocument(b, m2)
    ensures Ingested(b, [m1, m2]) == [d2]
    ensures d2 == Draft(m1.id, m1.date, "longer b", Some(5),
      [Acquire(b, File, MediaName(b.feedId, m1.id, 0)), Acquire(b, File, MediaName(b.feedId, m2.id, 1))],
      m1.hasUnsupportedMedia)
  {
    var s1 := Acquire(b, File, MediaName(b.feedId, m1.id, 0));
    var d1 := Draft(m1.id, m1.date, "a", Some(5), [s1], m1.hasUnsupportedMedia);
    var s2 := Acquire(b, File, MediaName(b.feedId, m2.id, 1));
    d2 := d1.(text := "longer b", media := [s1, s2]);
    var first := GroupExampleFirst(b, m1);
    assert Ingested(b, [m1, m2]) == Step(b, [d1], m2) by {
      IngestedSnoc(b, [m1], m2);
      AppendLiterals(m1, m2, m2);
    }
    assert Step(b, [d1], m2) == [d2] by {
      StepMergesIntoHeadExactly(b, [], d1, m2);
      AppendLiterals(d1, d1, d1);
      DocumentOnlyMedia(b, m2, [s1]);
      AppendLiterals(s1, s2, s2);
      assert TextLength(m2) > |d1.text|;
    }
  }

  /** The first message of GroupExample alone. */
  lemma GroupExampleFirst(b: Batch, m1: Message) returns (d1: Draft)
    requires Handled(b, m1) && m1.text == Some("a") && m1.groupedId == Some(5) && !m1.hasPhoto
    requires SmallDocument(b, m1)
    ensures Ingested(b, [m1]) == [d1]
    ensures d1 == Draft(m1.id, m1.date, "a", Some(5), [Acquire(b, File, MediaName(b.feedId, m1.id, 0))],
      m1.hasUnsupportedMedia)
  {
    IngestedSnoc(b, [], m1);
    AppendLiterals(m1, m1, m1);
    StepOpensEntryExactly(b, [], m1);
    DocumentOnlyMedia(b, m1, []);
    var s1 := Acquire(b, File, MediaName(b.feedId, m1.id, 0));
    AppendLiterals(s1, s1, s1);
    d1 := Draft(m1.id, m1.date, "a", Some(5), [Acquire(b, File, MediaName(b.feedId, m1.id, 0))],
      m1.hasUnsupportedMedia);
  }

  /** Ingesting one more message is one more Step. */
  lemma IngestedSnoc(b: Batch, msgs: seq<Message>, m: Message)
    ensures Ingested(b, msgs + [m]) == Step(b, Ingested(b, msgs), m)
  {
    assert (msgs + [m])[..|msgs|] == msgs;
  }

  /** A message with a document under the cap and no photo appends exactly the document's slot. */
  lemma DocumentOnlyMedia(b: Batch, m: Message, media: seq<Slot>)
    requires !m.hasPhoto && SmallDocument(b, m)
    ensures MessageMedia(b, m, media) == media + [Acquire(b, File, MediaName(b.feedId, m.id, |media|))]
  {
  }

  /** As written, the photo slot of a message is always "FAIL" (the instance PhotosRefused of the
      batch); every other slot it appends is the intended reading's. */
  lemma MessageMediaAsWritten(b: Batch, m: Message, media: seq<Slot>)
    ensures var r, i := MessageMedia(PhotosRefused(b), m, media), MessageMedia(b, m, media);
      && |r| == |i| && r[..|media|] == media
      && (m.hasPhoto ==> r[|media|] == Failed)
      && forall k | 0 <= k < |r| && !(m.hasPhoto && k == |media|) :: r[k] == i[k]
  {
    var rb := PhotosRefused(b);
    var photo := MediaName(b.feedId, m.id, |media|);
    assert Acquire(rb, Photo, photo) == Failed;
    var ra := if m.hasPhoto then media + [Failed] else media;
    var ia := if m.hasPhoto then media + [Acquire(b, Photo, photo)] else media;
    assert |ra| == |ia|;
    var doc := MediaName(b.feedId, m.id, |ra|);
    assert Acquire(rb, File, doc) == Acquire(b, File, doc);
  }

  /** A batch without photos ingests the same as written and as intended. */
  lemma {:induction false} IngestedAsWrittenWithoutPhotos(b: Batch, msgs: seq<Message>)
    requires forall k | 0 <= k < |msgs| :: !msgs[k].hasPhoto
    ensures Ingested(PhotosRefused(b), msgs) == Ingested(b, msgs)
    decreases |msgs|
  {
    if msgs != [] {
      var init, m := msgs[..|msgs| - 1], msgs[|msgs| - 1];
      IngestedAsWrittenWithoutPhotos(b, init);
      var acc := Ingested(b, init);
      if Handled(b, m) {
        var admitted := Admit(acc, m);
        var media := admitted[|admitted| - 1].media;
        MessageMediaAsWritten(b, m, media);
        assert MessageMedia(PhotosRefused(b), m, media) == MessageMedia(b, m, media);
      }
    }
  }

}
