/** Turning the loader's answer for one file name into a collection of
    records, and the two ways the auxiliary loaders write a collection into
    their table. */
module CollectionLoading {
  import opened MetadataTypes

  /** `loadMetadataAndCloseInput`: whatever was merged before a read or parse
      error is the collection; the error itself is logged and swallowed, and
      so is an error while closing the stream. */
  function LoadMetadataAndCloseInput(read: ReadOutcome): seq<PhoneMetadata>
  {
    match read
    case Complete(rs) => rs
    case ReadFailed => []
    case ParseFailed(merged) => merged
  }

  /** The one-argument `loadMetadataFromFile`: a missing stream raises
      IllegalStateException (an unchecked exception, so the auxiliary loaders'
      `catch (IOException)` does not absorb it); a failure to open the object
      stream surfaces as IOException; an opened stream always yields a
      collection. */
  function FetchCollection(loader: string -> StreamOutcome, fileName: string): (o: Outcome<seq<PhoneMetadata>>)
    ensures o.Returned? <==> loader(fileName).Opened?
    ensures loader(fileName).NoStream? ==> o == Threw(IllegalStateException("missing metadata: " + fileName))
    ensures loader(fileName).HeaderError? ==> o.Threw? && o.exception.IOException?
  {
    match loader(fileName)
    case NoStream => Threw(IllegalStateException("missing metadata: " + fileName))
    case HeaderError(detail) => Threw(IOException(detail))
    case Opened(read) => Returned(LoadMetadataAndCloseInput(read))
  }

  /** The alternate-formats loop: each record, in order, is put under its own
      calling code. Defined on the prefix `records[..|records| - 1]` so that it
      follows the loop step by step. */
  function PutByCountryCode(m: map<int, PhoneMetadata>, records: seq<PhoneMetadata>): map<int, PhoneMetadata>
    decreases |records|
  {
    if records == [] then m
    else
      var last := records[|records| - 1];
      PutByCountryCode(m, records[..|records| - 1])[last.countryCode := last]
  }

  /** `records[i]` is the last record that carries calling code `code`. */
  ghost predicate IsLastWithCode(records: seq<PhoneMetadata>, i: int, code: int)
  {
    0 <= i < |records| && records[i].countryCode == code
    && forall j :: i < j < |records| ==> records[j].countryCode != code
  }

  ghost predicate HasCode(records: seq<PhoneMetadata>, code: int)
  {
    exists i :: 0 <= i < |records| && records[i].countryCode == code
  }

  /** What the alternate-formats loop leaves under each calling code: the last
      record that carries that code, or the old entry when no record does. */
  lemma {:induction false} PutByCountryCodeAt(m: map<int, PhoneMetadata>, records: seq<PhoneMetadata>, code: int)
    ensures code in PutByCountryCode(m, records) <==> code in m || HasCode(records, code)
    ensures HasCode(records, code) ==>
              exists i :: IsLastWithCode(records, i, code) && PutByCountryCode(m, records)[code] == records[i]
    ensures !HasCode(records, code) && code in m ==> PutByCountryCode(m, records)[code] == m[code]
    decreases |records|
  {
    if records != [] {
      var n := |records| - 1;
      var init := records[..n];
      PutByCountryCodeAt(m, init, code);
      assert PutByCountryCode(m, records) == PutByCountryCode(m, init)[records[n].countryCode := records[n]];
      if records[n].countryCode == code {
        assert IsLastWithCode(records, n, code);
      } else {
        if HasCode(records, code) {
          var k :| 0 <= k < |records| && records[k].countryCode == code;
          assert init[k].countryCode == code;
          var i :| IsLastWithCode(init, i, code) && PutByCountryCode(m, init)[code] == init[i];
          assert IsLastWithCode(records, i, code);
        }
        if HasCode(init, code) {
          var k :| 0 <= k < |init| && init[k].countryCode == code;
          assert records[k].countryCode == code;
        }
      }
    }
  }

  /** When every record carries `code`, the loop writes that one key only,
      and leaves the last record there. */
  lemma PutByCountryCodeUniform(m: map<int, PhoneMetadata>, records: seq<PhoneMetadata>, code: int)
    requires forall i :: 0 <= i < |records| ==> records[i].countryCode == code
    ensures PutByCountryCode(m, records) == if records == [] then m else m[code := records[|records| - 1]]
  {
  }

  /** The short-number loop: every record, in order, is put under the same
      key. Defined on the prefix so that it follows the loop step by step. */
  function PutAllUnder(m: map<string, PhoneMetadata>, key: string, records: seq<PhoneMetadata>): map<string, PhoneMetadata>
    decreases |records|
  {
    if records == [] then m
    else PutAllUnder(m, key, records[..|records| - 1])[key := records[|records| - 1]]
  }

  /** The last record wins: the short-number loop amounts to one `put` of the
      final record, or to nothing when the collection is empty. */
  lemma {:induction false} PutAllUnderLastWins(m: map<string, PhoneMetadata>, key: string, records: seq<PhoneMetadata>)
    ensures PutAllUnder(m, key, records) == if records == [] then m else m[key := records[|records| - 1]]
    decreases |records|
  {
    if records != [] {
      var n := |records| - 1;
      PutAllUnderLastWins(m, key, records[..n]);
      if n > 0 {
        assert records[..n][..n - 1] == records[..n - 1];
        assert m[key := records[n - 1]][key := records[n]] == m[key := records[n]];
      }
    }
  }
}
