/** What the cache promises across its paths: which file a miss loads, what
    it stores, which failures surface and which are absorbed, that nothing is
    cached after a failure, and that a cached answer never changes. */
module CacheProperties {
  import opened MetadataTypes
  import opened ResourceNames
  import opened CollectionLoading
  import opened CacheSpec

  /** A region miss loads `filePrefix_regionCode` and keeps the first record,
      whatever follows it; no other table changes. */
  lemma RegionMissStoresFirstRecord(env: Environment, t: Tables, regionCode: string, records: seq<PhoneMetadata>)
    requires regionCode !in t.regions && regionCode != NonGeoEntityRegionCode
    requires FetchCollection(env.loader, ResourceName(env.filePrefix, regionCode)) == Returned(records)
    requires |records| > 0
    ensures RegionLookup(env, t, regionCode)
            == Step(Returned(Some(records[0])),
                    t.(regions := t.regions[regionCode := records[0]]),
                    [ResourceName(env.filePrefix, regionCode)])
  {
  }

  /** An empty collection on the primary path, including one left empty by a
      swallowed read error, is fatal; no entry is added, so the next call
      loads the same file again. */
  lemma RegionMissOnEmptyCollection(env: Environment, t: Tables, regionCode: string)
    requires regionCode !in t.regions && regionCode != NonGeoEntityRegionCode
    requires var source := env.loader(ResourceName(env.filePrefix, regionCode));
             source == Opened(ReadFailed) || source == Opened(Complete([])) || source == Opened(ParseFailed([]))
    ensures var fileName := ResourceName(env.filePrefix, regionCode);
            var s := RegionLookup(env, t, regionCode);
            && s == Step(Threw(IllegalStateException("empty metadata: " + fileName)), t, [fileName])
            && RegionLookup(env, s.tables, regionCode).requests == [fileName]
  {
  }

  /** On the primary path an IOException becomes a RuntimeException that
      carries it, and no table changes. */
  lemma PrimaryIOExceptionIsRethrown(env: Environment, t: Tables, regionCode: string, detail: string)
    requires regionCode !in t.regions && regionCode != NonGeoEntityRegionCode
    requires env.loader(ResourceName(env.filePrefix, regionCode)) == HeaderError(detail)
    ensures var fileName := ResourceName(env.filePrefix, regionCode);
            RegionLookup(env, t, regionCode)
            == Step(Threw(RuntimeException("cannot load/parse metadata: " + fileName, IOException(detail))),
                    t, [fileName])
  {
  }

  /** On the primary path, for a region and for the non-geographical entity
      alike, an IOException becomes a RuntimeException that carries it, and
      no table changes. */
  lemma PrimaryLoadRethrowsIOException(env: Environment, t: Tables, regionCode: string, countryCallingCode: int,
                                       detail: string)
    requires env.loader(PrimaryFileName(env.filePrefix, regionCode, countryCallingCode)) == HeaderError(detail)
    ensures var fileName := PrimaryFileName(env.filePrefix, regionCode, countryCallingCode);
            PrimaryLoad(env, t, regionCode, countryCallingCode)
            == Step(Threw(RuntimeException("cannot load/parse metadata: " + fileName, IOException(detail))),
                    t, [fileName])
  {
  }

  /** On the primary path, for a region and for the non-geographical entity
      alike, an empty collection is fatal and adds no entry. */
  lemma PrimaryLoadRejectsEmptyCollection(env: Environment, t: Tables, regionCode: string, countryCallingCode: int)
    requires FetchCollection(env.loader, PrimaryFileName(env.filePrefix, regionCode, countryCallingCode)) == Returned([])
    ensures var fileName := PrimaryFileName(env.filePrefix, regionCode, countryCallingCode);
            PrimaryLoad(env, t, regionCode, countryCallingCode)
            == Step(Threw(IllegalStateException("empty metadata: " + fileName)), t, [fileName])
  {
  }

  /** A read error inside `loadMetadataAndCloseInput` is swallowed and leaves
      the collection empty, so the primary path reports empty metadata rather
      than the read error. */
  lemma SwallowedReadErrorIsEmptyMetadata(env: Environment, t: Tables, regionCode: string, countryCallingCode: int)
    requires env.loader(PrimaryFileName(env.filePrefix, regionCode, countryCallingCode)) == Opened(ReadFailed)
    ensures var fileName := PrimaryFileName(env.filePrefix, regionCode, countryCallingCode);
            && FetchCollection(env.loader, fileName) == Returned([])
            && PrimaryLoad(env, t, regionCode, countryCallingCode)
               == Step(Threw(IllegalStateException("empty metadata: " + fileName)), t, [fileName])
  {
  }

  /** The failures of the non-geographical lookup are those of the primary
      load it makes: an IOException is rethrown as a RuntimeException and an
      empty collection is fatal, with no table changed either way. */
  lemma NonGeographicalMissFailures(env: Environment, t: Tables, countryCallingCode: int)
    requires countryCallingCode !in t.nonGeo
    requires countryCallingCode in env.countryCodeToRegionCodeMap
    requires IsNonGeoEntity(env.countryCodeToRegionCodeMap[countryCallingCode])
    ensures var fileName := ResourceName(env.filePrefix, DecimalString(countryCallingCode));
            env.loader(fileName).HeaderError? ==>
              NonGeographicalLookup(env, t, countryCallingCode)
              == Step(Threw(RuntimeException("cannot load/parse metadata: " + fileName,
                                             IOException(env.loader(fileName).detail))),
                      t, [fileName])
    ensures var fileName := ResourceName(env.filePrefix, DecimalString(countryCallingCode));
            FetchCollection(env.loader, fileName) == Returned([]) ==>
              NonGeographicalLookup(env, t, countryCallingCode)
              == Step(Threw(IllegalStateException("empty metadata: " + fileName)), t, [fileName])
  {
  }

  /** The sentinel region is not a real region: looking it up loads the file
      of calling code 0 into the non-geographical table and answers nothing. */
  lemma SentinelRegionLookup(env: Environment, t: Tables)
    requires NonGeoEntityRegionCode !in t.regions
    ensures var s := RegionLookup(env, t, NonGeoEntityRegionCode);
            && s.requests == [ResourceName(env.filePrefix, "0")]
            && s.tables.regions == t.regions
            && s.tables.alternates == t.alternates && s.tables.shortNumbers == t.shortNumbers
            && (s.outcome.Returned? ==>
                  && s.outcome.value == None
                  && 0 in s.tables.nonGeo
                  && s.tables.nonGeo == t.nonGeo[0 := s.tables.nonGeo[0]])
            // the sentinel is never cached, so the next lookup loads the same file again
            && RegionLookup(env, s.tables, NonGeoEntityRegionCode).requests == [ResourceName(env.filePrefix, "0")]
  {
  }

  /** Because the sentinel is never cached, a successful sentinel lookup puts
      the first record of file `filePrefix_0` under calling code 0 even when
      that code already has an entry, replacing it. */
  lemma SentinelRegionLookupReplacesEntry(env: Environment, t: Tables, records: seq<PhoneMetadata>)
    requires NonGeoEntityRegionCode !in t.regions
    requires FetchCollection(env.loader, ResourceName(env.filePrefix, "0")) == Returned(records)
    requires |records| > 0
    ensures RegionLookup(env, t, NonGeoEntityRegionCode)
            == Step(Returned(None), t.(nonGeo := t.nonGeo[0 := records[0]]), [ResourceName(env.filePrefix, "0")])
  {
  }

  /** A non-geographical miss for a code of the non-geographical entity loads
      `filePrefix_code` and files the first record under that code only. */
  lemma NonGeographicalMissStoresFirstRecord(env: Environment, t: Tables, countryCallingCode: int,
                                             records: seq<PhoneMetadata>)
    requires countryCallingCode !in t.nonGeo
    requires countryCallingCode in env.countryCodeToRegionCodeMap
    requires IsNonGeoEntity(env.countryCodeToRegionCodeMap[countryCallingCode])
    requires FetchCollection(env.loader, ResourceName(env.filePrefix, DecimalString(countryCallingCode)))
             == Returned(records)
    requires |records| > 0
    ensures NonGeographicalLookup(env, t, countryCallingCode)
            == Step(Returned(Some(records[0])),
                    t.(nonGeo := t.nonGeo[countryCallingCode := records[0]]),
                    [ResourceName(env.filePrefix, DecimalString(countryCallingCode))])
  {
  }

  /** An alternate-formats miss files every record under its own calling
      code, so the requested code is answered only when some record carries
      it, and then by the last such record. */
  lemma AlternateFormatsMissFilesByOwnCode(env: Environment, t: Tables, countryCallingCode: int,
                                           records: seq<PhoneMetadata>)
    requires countryCallingCode in env.countryCodeSet && countryCallingCode !in t.alternates
    requires FetchCollection(env.loader, ResourceName(env.alternateFormatsFilePrefix, DecimalString(countryCallingCode)))
             == Returned(records)
    ensures var s := AlternateFormatsLookup(env, t, countryCallingCode);
            && s.tables == t.(alternates := PutByCountryCode(t.alternates, records))
            && (s.outcome == Returned(None) <==> !HasCode(records, countryCallingCode))
            && (HasCode(records, countryCallingCode) ==>
                  exists i :: IsLastWithCode(records, i, countryCallingCode)
                              && s.outcome == Returned(Some(records[i])))
  {
    PutByCountryCodeAt(t.alternates, records, countryCallingCode);
  }

  /** A short-number miss files every record under the requested region, so
      the last record is the one kept; an empty collection stores nothing. */
  lemma ShortNumberMissKeepsLastRecord(env: Environment, t: Tables, regionCode: string,
                                       records: seq<PhoneMetadata>)
    requires regionCode in env.regionCodeSet && regionCode !in t.shortNumbers
    requires FetchCollection(env.loader, ResourceName(env.shortNumberFilePrefix, regionCode)) == Returned(records)
    ensures var fileName := ResourceName(env.shortNumberFilePrefix, regionCode);
            ShortNumberLookup(env, t, regionCode)
            == if records == [] then Step(Returned(None), t, [fileName])
               else Step(Returned(Some(records[|records| - 1])),
                         t.(shortNumbers := t.shortNumbers[regionCode := records[|records| - 1]]),
                         [fileName])
  {
  }

  /** On the auxiliary paths an IOException is absorbed: the lookup answers
      nothing, caches nothing, and the next lookup loads the file again. */
  lemma AlternateFormatsIOExceptionIsAbsorbed(env: Environment, t: Tables, countryCallingCode: int, detail: string)
    requires countryCallingCode in env.countryCodeSet && countryCallingCode !in t.alternates
    requires env.loader(ResourceName(env.alternateFormatsFilePrefix, DecimalString(countryCallingCode)))
             == HeaderError(detail)
    ensures var fileName := ResourceName(env.alternateFormatsFilePrefix, DecimalString(countryCallingCode));
            var s := AlternateFormatsLookup(env, t, countryCallingCode);
            && s == Step(Returned(None), t, [fileName])
            && AlternateFormatsLookup(env, s.tables, countryCallingCode).requests == [fileName]
  {
  }

  lemma ShortNumberIOExceptionIsAbsorbed(env: Environment, t: Tables, regionCode: string, detail: string)
    requires regionCode in env.regionCodeSet && regionCode !in t.shortNumbers
    requires env.loader(ResourceName(env.shortNumberFilePrefix, regionCode)) == HeaderError(detail)
    ensures var fileName := ResourceName(env.shortNumberFilePrefix, regionCode);
            var s := ShortNumberLookup(env, t, regionCode);
            && s == Step(Returned(None), t, [fileName])
            && ShortNumberLookup(env, s.tables, regionCode).requests == [fileName]
  {
  }

  /** A loader that returns no stream is fatal on every path, the auxiliary
      ones included, because they catch IOException only. */
  lemma MissingStreamIsFatalOnEveryPath(env: Environment, t: Tables, regionCode: string, countryCallingCode: int)
    ensures var fileName := ResourceName(env.filePrefix, regionCode);
            regionCode !in t.regions && regionCode != NonGeoEntityRegionCode && env.loader(fileName) == NoStream ==>
              RegionLookup(env, t, regionCode)
              == Step(Threw(IllegalStateException("missing metadata: " + fileName)), t, [fileName])
    ensures var fileName := ResourceName(env.filePrefix, DecimalString(countryCallingCode));
            countryCallingCode !in t.nonGeo && countryCallingCode in env.countryCodeToRegionCodeMap
            && IsNonGeoEntity(env.countryCodeToRegionCodeMap[countryCallingCode]) && env.loader(fileName) == NoStream ==>
              NonGeographicalLookup(env, t, countryCallingCode)
              == Step(Threw(IllegalStateException("missing metadata: " + fileName)), t, [fileName])
    ensures var fileName := ResourceName(env.alternateFormatsFilePrefix, DecimalString(countryCallingCode));
            countryCallingCode in env.countryCodeSet && countryCallingCode !in t.alternates
            && env.loader(fileName) == NoStream ==>
              AlternateFormatsLookup(env, t, countryCallingCode)
              == Step(Threw(IllegalStateException("missing metadata: " + fileName)), t, [fileName])
    ensures var fileName := ResourceName(env.shortNumberFilePrefix, regionCode);
            regionCode in env.regionCodeSet && regionCode !in t.shortNumbers && env.loader(fileName) == NoStream ==>
              ShortNumberLookup(env, t, regionCode)
              == Step(Threw(IllegalStateException("missing metadata: " + fileName)), t, [fileName])
  {
  }

  /** Once a lookup has answered with metadata, the same lookup answers the
      same metadata again without loading anything or changing any table. */
  lemma AnswersAreStable(env: Environment, t: Tables, regionCode: string, countryCallingCode: int)
    ensures var s := RegionLookup(env, t, regionCode);
            s.outcome.Returned? && s.outcome.value.Some? ==>
              RegionLookup(env, s.tables, regionCode) == Step(s.outcome, s.tables, [])
    ensures var s := NonGeographicalLookup(env, t, countryCallingCode);
            s.outcome.Returned? && s.outcome.value.Some? ==>
              NonGeographicalLookup(env, s.tables, countryCallingCode) == Step(s.outcome, s.tables, [])
    ensures var s := AlternateFormatsLookup(env, t, countryCallingCode);
            s.outcome.Returned? && s.outcome.value.Some? ==>
              AlternateFormatsLookup(env, s.tables, countryCallingCode) == Step(s.outcome, s.tables, [])
    ensures var s := ShortNumberLookup(env, t, regionCode);
            s.outcome.Returned? && s.outcome.value.Some? ==>
              ShortNumberLookup(env, s.tables, regionCode) == Step(s.outcome, s.tables, [])
  {
  }

  /** The empty tables a cache starts from are well formed, and every lookup
      keeps them so. */
  lemma LookupsPreserveWellFormed(env: Environment, t: Tables, regionCode: string, countryCallingCode: int)
    requires WellFormed(env, t)
    ensures WellFormed(env, EmptyTables)
    ensures WellFormed(env, RegionLookup(env, t, regionCode).tables)
    ensures WellFormed(env, NonGeographicalLookup(env, t, countryCallingCode).tables)
    ensures WellFormed(env, AlternateFormatsLookup(env, t, countryCallingCode).tables)
    ensures WellFormed(env, ShortNumberLookup(env, t, regionCode).tables)
  {
  }

  /** In a well-formed cache an alternate-formats answer always belongs to the
      calling code that was asked for. */
  lemma AlternateFormatsAnswerMatchesCode(env: Environment, t: Tables, countryCallingCode: int)
    requires WellFormed(env, t)
    ensures var s := AlternateFormatsLookup(env, t, countryCallingCode);
            s.outcome.Returned? && s.outcome.value.Some? ==> s.outcome.value.value.countryCode == countryCallingCode
  {
  }

  /** Entries of the alternate-formats table are not write-once: a file that
      holds a record for another calling code replaces that code's entry, and
      the requested code stays absent. */
  lemma AlternateFormatsLoadCanReplaceEntry()
    ensures var cached := PhoneMetadata("cached", 49);
            var loaded := PhoneMetadata("loaded", 49);
            var env := Environment("p", "a", "s", (fileName: string) => Opened(Complete([loaded])),
                                   map[], {44}, {});
            var t := EmptyTables.(alternates := map[49 := cached]);
            var s := AlternateFormatsLookup(env, t, 44);
            s.outcome == Returned(None) && s.tables.alternates[49] == loaded && loaded != cached
  {
  }

  /** When every record of the file carries the requested code (the shape the
      metadata files have), the alternate-formats load only adds that code. */
  lemma AlternateFormatsWriteOnceForMatchingRecords(env: Environment, t: Tables, countryCallingCode: int,
                                                    records: seq<PhoneMetadata>)
    requires countryCallingCode in env.countryCodeSet && countryCallingCode !in t.alternates
    requires FetchCollection(env.loader, ResourceName(env.alternateFormatsFilePrefix, DecimalString(countryCallingCode)))
             == Returned(records)
    requires forall i :: 0 <= i < |records| ==> records[i].countryCode == countryCallingCode
    ensures var s := AlternateFormatsLookup(env, t, countryCallingCode);
            && Extends(t.alternates, s.tables.alternates)
            && s.tables.alternates.Keys <= t.alternates.Keys + {countryCallingCode}
            && (records != [] ==> s.outcome == Returned(Some(records[|records| - 1])))
  {
    PutByCountryCodeUniform(t.alternates, records, countryCallingCode);
  }
}
