/** The replies of a similarity search: one message per returned passage, in
    order, then the end marker. */
module SearchOutput {
  import opened Text

  const PageContentKey := "page_content"
  const EndMarker := "... end."

  /** The deserialized backend output: `None` when it deserializes to null. */
  type Passages = Option<seq<map<string, string>>>

  /** The number of leading records that have a `page_content` entry. */
  function FirstMissing(records: seq<map<string, string>>): (k: nat)
    ensures k <= |records|
    ensures forall i :: 0 <= i < k ==> PageContentKey in records[i]
    ensures k < |records| ==> PageContentKey !in records[k]
  {
    if records == [] || PageContentKey !in records[0] then 0
    else 1 + FirstMissing(records[1..])
  }

  /** The `page_content` of each record, in order. */
  function PageContents(records: seq<map<string, string>>): (texts: seq<string>)
    requires forall i :: 0 <= i < |records| ==> PageContentKey in records[i]
    ensures |texts| == |records|
    ensures forall i :: 0 <= i < |records| ==> texts[i] == records[i][PageContentKey]
  {
    if records == [] then []
    else PageContents(records[..|records| - 1]) + [records[|records| - 1][PageContentKey]]
  }

  /** The messages sent for `parsed`: the passages up to the first record without
      `page_content` (where the dictionary lookup throws), then, if none was
      missing, the end marker. */
  function SearchReplies(parsed: Passages): seq<string>
  {
    match parsed
    case None => [EndMarker]
    case Some(records) =>
      var k := FirstMissing(records);
      PageContents(records[..k]) + (if k == |records| then [EndMarker] else [])
  }

  /** Every passage in order, then exactly one end marker; only the end marker for null. */
  lemma SearchRepliesSpec(parsed: Passages)
    ensures parsed.None? ==> SearchReplies(parsed) == [EndMarker]
    ensures parsed.Some? && FirstMissing(parsed.value) == |parsed.value| ==>
      var replies := SearchReplies(parsed);
      && |replies| == |parsed.value| + 1
      && (forall i :: 0 <= i < |parsed.value| ==> replies[i] == parsed.value[i][PageContentKey])
      && replies[|parsed.value|] == EndMarker
    ensures parsed.Some? && FirstMissing(parsed.value) < |parsed.value| ==>
      var replies := SearchReplies(parsed);
      && |replies| == FirstMissing(parsed.value)
      && (forall i :: 0 <= i < |replies| ==> replies[i] == parsed.value[i][PageContentKey])
  {
    if parsed.Some? {
      var records := parsed.value;
      assert records[..|records|] == records;
    }
  }

  /** The loop that sends one message per record and then the end marker; `faulted`
      reports the lookup failure that stops it at a record without `page_content`. */
  method EmitSearchResults(parsed: Passages) returns (sent: seq<string>, faulted: bool)
    ensures sent == SearchReplies(parsed)
    ensures faulted <==> parsed.Some? && FirstMissing(parsed.value) < |parsed.value|
  {
    sent := [];
    faulted := false;
    if parsed.Some? {
      var records := parsed.value;
      var i := 0;
      while i < |records|
        invariant 0 <= i <= |records|
        invariant i <= FirstMissing(records)
        invariant forall j :: 0 <= j < i ==> PageContentKey in records[j]
        invariant sent == PageContents(records[..i])
      {
        if PageContentKey !in records[i] {
          faulted := true;
          return;
        }
        assert records[..i + 1][..i] == records[..i];
        sent := sent + [records[i][PageContentKey]];
        i := i + 1;
      }
    }
    sent := sent + [EndMarker];
  }
}
