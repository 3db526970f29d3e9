/** The metadata cache as a state machine over its four tables. Each Java
    method of `MultiFileMetadataSourceImpl` is one function from the current
    tables to a `Step`: how the call ends, the tables afterwards, and the file
    names it asked the loader for. The class in MultiFileSource is proved to
    follow these functions; the lemmas here state what the cache promises. */
module CacheSpec {
  import opened MetadataTypes
  import opened ResourceNames
  import opened CollectionLoading

  /** `PhoneNumberUtil.REGION_CODE_FOR_NON_GEO_ENTITY`. */
  const NonGeoEntityRegionCode: string := "001"

  /** What a cache is built from: the three file prefixes, the loader, and the
      three static tables it consults. */
  datatype Environment = Environment(
    filePrefix: string,
    alternateFormatsFilePrefix: string,
    shortNumberFilePrefix: string,
    loader: string -> StreamOutcome,
    countryCodeToRegionCodeMap: map<int, seq<string>>,
    countryCodeSet: set<int>,
    regionCodeSet: set<string>)

  /** The four tables the cache fills. */
  datatype Tables = Tables(
    regions: map<string, PhoneMetadata>,
    nonGeo: map<int, PhoneMetadata>,
    alternates: map<int, PhoneMetadata>,
    shortNumbers: map<string, PhoneMetadata>)

  /** One call: how it ended, the tables after it, the file names it loaded. */
  datatype Step<T> = Step(outcome: Outcome<T>, tables: Tables, requests: seq<string>)

  const EmptyTables := Tables(map[], map[], map[], map[])

  /** The calling code belongs to the non-geographical entity alone. */
  predicate IsNonGeoEntity(regionCodes: seq<string>)
  {
    |regionCodes| == 1 && regionCodes[0] == NonGeoEntityRegionCode
  }

  /** The file the primary loader reads: the region's own file, or for the
      non-geographical sentinel the file of the calling code. */
  function PrimaryFileName(filePrefix: string, regionCode: string, countryCallingCode: int): string
  {
    ResourceName(filePrefix,
      if regionCode == NonGeoEntityRegionCode then DecimalString(countryCallingCode) else regionCode)
  }

  /** Invariant the cache keeps from its empty start: the sentinel is never a
      region key, every alternate-formats entry sits under its own calling
      code, and short-number entries exist only for listed regions. */
  ghost predicate WellFormed(env: Environment, t: Tables)
  {
    && NonGeoEntityRegionCode !in t.regions
    && (forall code :: code in t.alternates ==> t.alternates[code].countryCode == code)
    && t.shortNumbers.Keys <= env.regionCodeSet
  }

  /** After a load, `map.get(key)` on the table it filled. */
  function ThenGet<K>(s: Step<()>, table: map<K, PhoneMetadata>, key: K): Step<Option<PhoneMetadata>>
  {
    match s.outcome
    case Threw(e) => Step(Threw(e), s.tables, s.requests)
    case Returned(_) => Step(Returned(Get(table, key)), s.tables, s.requests)
  }

  /** `loadMetadataFromFile(regionCode, countryCallingCode)`: one load; an
      empty collection is fatal, the first record of a non-empty one is stored
      (in the non-geographical table for the sentinel region, in the region
      table otherwise), and an IOException is rethrown as a RuntimeException. */
  function PrimaryLoad(env: Environment, t: Tables, regionCode: string, countryCallingCode: int): (s: Step<()>)
    ensures s.requests == [PrimaryFileName(env.filePrefix, regionCode, countryCallingCode)]
    ensures s.outcome.Threw? ==> s.tables == t
    ensures s.outcome.Threw? ==>
              s.outcome.exception.IllegalStateException? || s.outcome.exception.RuntimeException?
    ensures s.tables.alternates == t.alternates && s.tables.shortNumbers == t.shortNumbers
    ensures regionCode != NonGeoEntityRegionCode ==>
              s.tables.nonGeo == t.nonGeo
              && (s.outcome.Returned? ==>
                    regionCode in s.tables.regions
                    && s.tables.regions == t.regions[regionCode := s.tables.regions[regionCode]])
    ensures regionCode == NonGeoEntityRegionCode ==>
              s.tables.regions == t.regions
              && (s.outcome.Returned? ==>
                    countryCallingCode in s.tables.nonGeo
                    && s.tables.nonGeo == t.nonGeo[countryCallingCode := s.tables.nonGeo[countryCallingCode]])
  {
    var fileName := PrimaryFileName(env.filePrefix, regionCode, countryCallingCode);
    match FetchCollection(env.loader, fileName)
    case Threw(e) =>
      var raised := if e.IOException? then RuntimeException("cannot load/parse metadata: " + fileName, e) else e;
      Step(Threw(raised), t, [fileName])
    case Returned(metadataList) =>
      if |metadataList| == 0 then
        Step(Threw(IllegalStateException("empty metadata: " + fileName)), t, [fileName])
      else
        // a collection of more than one record is only logged as a warning
        var metadata := metadataList[0];
        var t' :=
          if regionCode == NonGeoEntityRegionCode
          then t.(nonGeo := t.nonGeo[countryCallingCode := metadata])
          else t.(regions := t.regions[regionCode := metadata]);
        Step(Returned(()), t', [fileName])
  }

  /** `getMetadataForRegion`. */
  function RegionLookup(env: Environment, t: Tables, regionCode: string): (s: Step<Option<PhoneMetadata>>)
    // a cached region is answered from the table, with no load and no change
    ensures regionCode in t.regions ==> s == Step(Returned(Some(t.regions[regionCode])), t, [])
    // a region not cached is loaded exactly once
    ensures regionCode !in t.regions ==> s.requests == [PrimaryFileName(env.filePrefix, regionCode, 0)]
    ensures s.outcome.Threw? ==> s.tables == t
    // for a real region: only the region table changes, only by gaining this key,
    // and a normal return always has the metadata
    ensures regionCode != NonGeoEntityRegionCode ==>
              && s.tables.(regions := t.regions) == t
              && Extends(t.regions, s.tables.regions)
              && s.tables.regions.Keys <= t.regions.Keys + {regionCode}
              && (s.outcome.Returned? ==>
                    regionCode in s.tables.regions && s.outcome.value == Some(s.tables.regions[regionCode]))
  {
    if regionCode in t.regions then Step(Returned(Some(t.regions[regionCode])), t, [])
    else
      var s := PrimaryLoad(env, t, regionCode, 0);
      ThenGet(s, s.tables.regions, regionCode)
  }

  /** `getMetadataForNonGeographicalRegion`. A calling code missing from the
      calling-code table makes the source dereference null. */
  function NonGeographicalLookup(env: Environment, t: Tables, countryCallingCode: int): (s: Step<Option<PhoneMetadata>>)
    ensures countryCallingCode in t.nonGeo ==>
              s == Step(Returned(Some(t.nonGeo[countryCallingCode])), t, [])
    // loads only for a code that belongs to the non-geographical entity alone
    ensures countryCallingCode !in t.nonGeo ==>
              if countryCallingCode in env.countryCodeToRegionCodeMap
                 && IsNonGeoEntity(env.countryCodeToRegionCodeMap[countryCallingCode])
              then s.requests == [ResourceName(env.filePrefix, DecimalString(countryCallingCode))]
              else s.requests == [] && s.tables == t
                   && s.outcome == (if countryCallingCode in env.countryCodeToRegionCodeMap
                                    then Returned(None) else Threw(NullPointerException))
    ensures s.outcome.Threw? ==> s.tables == t
    ensures s.tables.(nonGeo := t.nonGeo) == t
    ensures Extends(t.nonGeo, s.tables.nonGeo)
    ensures s.tables.nonGeo.Keys <= t.nonGeo.Keys + {countryCallingCode}
    ensures s.outcome.Returned? && s.outcome.value.Some? ==>
              countryCallingCode in s.tables.nonGeo && s.outcome.value.value == s.tables.nonGeo[countryCallingCode]
  {
    if countryCallingCode in t.nonGeo then Step(Returned(Some(t.nonGeo[countryCallingCode])), t, [])
    else if countryCallingCode !in env.countryCodeToRegionCodeMap then Step(Threw(NullPointerException), t, [])
    else if IsNonGeoEntity(env.countryCodeToRegionCodeMap[countryCallingCode]) then
      var s := PrimaryLoad(env, t, NonGeoEntityRegionCode, countryCallingCode);
      ThenGet(s, s.tables.nonGeo, countryCallingCode)
    else Step(Returned(None), t, [])
  }

  /** `loadAlternateFormatsMetadataFromFile`: every record is put under its
      own calling code; an IOException is logged and swallowed. */
  function AlternateFormatsLoad(env: Environment, t: Tables, countryCallingCode: int): (s: Step<()>)
    ensures s.requests == [ResourceName(env.alternateFormatsFilePrefix, DecimalString(countryCallingCode))]
    ensures s.tables.(alternates := t.alternates) == t
    ensures s.outcome.Threw? ==> s.outcome.exception.IllegalStateException? && s.tables == t
    // every entry is either the old one or a record filed under its own code
    ensures forall code :: code in s.tables.alternates ==>
              (code in t.alternates && s.tables.alternates[code] == t.alternates[code])
              || s.tables.alternates[code].countryCode == code
  {
    var fileName := ResourceName(env.alternateFormatsFilePrefix, DecimalString(countryCallingCode));
    match FetchCollection(env.loader, fileName)
    case Threw(e) =>
      if e.IOException? then Step(Returned(()), t, [fileName]) else Step(Threw(e), t, [fileName])
    case Returned(records) =>
      var alternates := PutByCountryCode(t.alternates, records);
      assert forall code :: code in alternates ==>
               (code in t.alternates && alternates[code] == t.alternates[code])
               || alternates[code].countryCode == code
      by {
        forall code | code in alternates
          ensures (code in t.alternates && alternates[code] == t.alternates[code])
                  || alternates[code].countryCode == code
        {
          PutByCountryCodeAt(t.alternates, records, code);
        }
      }
      Step(Returned(()), t.(alternates := alternates), [fileName])
  }

  /** `getAlternateFormatsForCountry`. */
  function AlternateFormatsLookup(env: Environment, t: Tables, countryCallingCode: int): (s: Step<Option<PhoneMetadata>>)
    // codes outside the set never reach the loader or the tables
    ensures countryCallingCode !in env.countryCodeSet ==> s == Step(Returned(None), t, [])
    ensures countryCallingCode in env.countryCodeSet && countryCallingCode in t.alternates ==>
              s == Step(Returned(Some(t.alternates[countryCallingCode])), t, [])
    ensures countryCallingCode in env.countryCodeSet && countryCallingCode !in t.alternates ==>
              s.requests == [ResourceName(env.alternateFormatsFilePrefix, DecimalString(countryCallingCode))]
    ensures s.tables.(alternates := t.alternates) == t
    // only a missing stream escapes; every IOException is absorbed
    ensures s.outcome.Threw? ==> s.outcome.exception.IllegalStateException? && s.tables == t
    ensures s.outcome.Returned? && s.outcome.value.Some? ==>
              countryCallingCode in s.tables.alternates
              && s.outcome.value.value == s.tables.alternates[countryCallingCode]
  {
    if countryCallingCode !in env.countryCodeSet then Step(Returned(None), t, [])
    else if countryCallingCode in t.alternates then
      Step(Returned(Some(t.alternates[countryCallingCode])), t, [])
    else
      var s := AlternateFormatsLoad(env, t, countryCallingCode);
      ThenGet(s, s.tables.alternates, countryCallingCode)
  }

  /** `loadShortNumberMetadataFromFile`: every record is put under the
      requested region; an IOException is logged and swallowed. */
  function ShortNumberLoad(env: Environment, t: Tables, regionCode: string): (s: Step<()>)
    ensures s.requests == [ResourceName(env.shortNumberFilePrefix, regionCode)]
    ensures s.tables.(shortNumbers := t.shortNumbers) == t
    ensures s.outcome.Threw? ==> s.outcome.exception.IllegalStateException? && s.tables == t
    ensures s.tables.shortNumbers == t.shortNumbers
            || (regionCode in s.tables.shortNumbers
                && s.tables.shortNumbers == t.shortNumbers[regionCode := s.tables.shortNumbers[regionCode]])
  {
    var fileName := ResourceName(env.shortNumberFilePrefix, regionCode);
    match FetchCollection(env.loader, fileName)
    case Threw(e) =>
      if e.IOException? then Step(Returned(()), t, [fileName]) else Step(Threw(e), t, [fileName])
    case Returned(records) =>
      PutAllUnderLastWins(t.shortNumbers, regionCode, records);
      Step(Returned(()), t.(shortNumbers := PutAllUnder(t.shortNumbers, regionCode, records)), [fileName])
  }

  /** `getShortNumberMetadataForRegion`. */
  function ShortNumberLookup(env: Environment, t: Tables, regionCode: string): (s: Step<Option<PhoneMetadata>>)
    // regions outside the set never reach the loader or the tables
    ensures regionCode !in env.regionCodeSet ==> s == Step(Returned(None), t, [])
    ensures regionCode in env.regionCodeSet && regionCode in t.shortNumbers ==>
              s == Step(Returned(Some(t.shortNumbers[regionCode])), t, [])
    ensures regionCode in env.regionCodeSet && regionCode !in t.shortNumbers ==>
              s.requests == [ResourceName(env.shortNumberFilePrefix, regionCode)]
    ensures s.tables.(shortNumbers := t.shortNumbers) == t
    ensures Extends(t.shortNumbers, s.tables.shortNumbers)
    ensures s.tables.shortNumbers.Keys <= t.shortNumbers.Keys + {regionCode}
    ensures s.outcome.Threw? ==> s.outcome.exception.IllegalStateException? && s.tables == t
    ensures s.outcome.Returned? && s.outcome.value.Some? ==>
              regionCode in s.tables.shortNumbers && s.outcome.value.value == s.tables.shortNumbers[regionCode]
  {
    if regionCode !in env.regionCodeSet then Step(Returned(None), t, [])
    else if regionCode in t.shortNumbers then Step(Returned(Some(t.shortNumbers[regionCode])), t, [])
    else
      var s := ShortNumberLoad(env, t, regionCode);
      ThenGet(s, s.tables.shortNumbers, regionCode)
  }
}
