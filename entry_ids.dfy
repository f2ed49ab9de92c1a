/** Deterministic identities derived from a feed id and a Telegram message id
    (telegram_to_rss/poll_telegram.py, `to_feed_entry_id`, `parse_feed_entry_id` and the
    media file name built in `_download_media`). */
module EntryIds {
  import opened Wrappers
  import opened Text

  /** `"{feedId}--{msgId}"`. */
  function ToFeedEntryId(feedId: int, msgId: int): (id: string)
    ensures |id| >= 4
  {
    IntToString(feedId) + "--" + IntToString(msgId)
  }

  /** `[channel_id, message_id] = id.split("--")` followed by two `int(...)` calls; `None` where
      the unpacking or a conversion raises ValueError. */
  function ParseFeedEntryId(id: string): Option<(int, int)>
  {
    var parts := SplitOnSeparator(id);
    if |parts| != 2 then None
    else match (ParseInt(parts[0]), ParseInt(parts[1]))
      case (Some(f), Some(m)) => Some((f, m))
      case _ => None
  }

  /** Every entry id parses back to the pair it was built from: telethon's negative channel ids
      and any message id included. */
  lemma EntryIdRoundTrip(feedId: int, msgId: int)
    ensures ParseFeedEntryId(ToFeedEntryId(feedId, msgId)) == Some((feedId, msgId))
  {
    var a, b := IntToString(feedId), IntToString(msgId);
    IntToStringShape(feedId);
    IntToStringShape(msgId);
    SplitAtJoint(a, b);
    SplitWithoutSeparator(b);
    IntToStringRoundTrip(feedId);
    IntToStringRoundTrip(msgId);
  }

  /** Two separator-free pieces joined by "--" parse exactly when both are integers. */
  lemma ParseTwoPieces(a: string, b: string)
    requires NoSeparator(a) && (a == [] || a[|a| - 1] != '-') && NoSeparator(b)
    ensures ParseFeedEntryId(a + "--" + b) ==
      if ParseInt(a).Some? && ParseInt(b).Some? then Some((ParseInt(a).value, ParseInt(b).value)) else None
  {
    SplitAtJoint(a, b);
    SplitWithoutSeparator(b);
  }

  /** Without a "--" the unpacking into two names raises ValueError. */
  lemma ParseRejectsMissingSeparator(id: string)
    requires NoSeparator(id)
    ensures ParseFeedEntryId(id).None?
  {
    SplitWithoutSeparator(id);
  }

  /** An entry id followed by one more "--" piece splits into three and is rejected. */
  lemma ParseRejectsThreePieces(feedId: int, msgId: int, k: int)
    ensures ParseFeedEntryId(ToFeedEntryId(feedId, msgId) + "--" + IntToString(k)).None?
  {
    var a, b, c := IntToString(feedId), IntToString(msgId), IntToString(k);
    IntToStringShape(feedId);
    IntToStringShape(msgId);
    IntToStringShape(k);
    assert ToFeedEntryId(feedId, msgId) + "--" + c == a + "--" + (b + "--" + c);
    SplitAtJoint(a, b + "--" + c);
    SplitAtJoint(b, c);
    SplitWithoutSeparator(c);
  }

  /** Distinct (feed, message) pairs get distinct entry ids. */
  lemma EntryIdInjective(f1: int, m1: int, f2: int, m2: int)
    requires ToFeedEntryId(f1, m1) == ToFeedEntryId(f2, m2)
    ensures f1 == f2 && m1 == m2
  {
    EntryIdRoundTrip(f1, m1);
    EntryIdRoundTrip(f2, m2);
  }

  /** The media file name `"{feedId}--{msgId}-{ordinal}"`. */
  function MediaName(feedId: int, msgId: int, ordinal: nat): (name: string)
    ensures |name| >= 6
  {
    ToFeedEntryId(feedId, msgId) + "-" + NatToString(ordinal)
  }

  /** A media file name starts like a formatted integer: with a digit or a minus sign, so it is
      never the "FAIL" marker and never starts with "TOO_LARGE". */
  lemma MediaNameIsNotMarker(feedId: int, msgId: int, ordinal: nat)
    ensures MediaName(feedId, msgId, ordinal) != "FAIL"
    ensures !StartsWith(MediaName(feedId, msgId, ordinal), "TOO_LARGE")
  {
    IntToStringShape(feedId);
    var name := MediaName(feedId, msgId, ordinal);
    assert name[0] == IntToString(feedId)[0];
    assert "FAIL"[0] == 'F' && "TOO_LARGE"[0] == 'T';
  }
}
