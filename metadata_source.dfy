/** `MultiFileMetadataSourceImpl`: the lazily filled metadata cache as an
    object with four mutable tables. Every method is proved to follow the
    corresponding step function of CacheSpec, so the properties proved there
    hold of the object. The ghost `Requests` records, in order, every file
    name handed to the loader. */
module MultiFileSource {
  import opened MetadataTypes
  import opened ResourceNames
  import opened CollectionLoading
  import opened CacheSpec

  const MetaDataFilePrefix: string :=
    "/io/michaelrocks/libphonenumber/android/data/PhoneNumberMetadataProto"
  const AlternateFormatsFilePrefix: string :=
    "/io/michaelrocks/libphonenumber/android/data/PhoneNumberAlternateFormatsProto"
  const ShortNumberMetadataFilePrefix: string :=
    "/io/michaelrocks/libphonenumber/android/data/ShortNumberMetadataProto"

  class MultiFileMetadataSourceImpl {
    const filePrefix: string
    const alternateFormatsFilePrefix: string
    const shortNumberFilePrefix: string
    const metadataLoader: string -> StreamOutcome
    // the static tables the source reads: the calling-code table, and the
    // calling codes and regions that have alternate-format and short-number data
    const countryCodeToRegionCodeMap: map<int, seq<string>>
    const countryCodeSet: set<int>
    const regionCodeSet: set<string>

    var regionToMetadataMap: map<string, PhoneMetadata>
    var countryCodeToNonGeographicalMetadataMap: map<int, PhoneMetadata>
    var callingCodeToAlternateFormatsMap: map<int, PhoneMetadata>
    var regionCodeToShortNumberMetadataMap: map<string, PhoneMetadata>

    ghost var Requests: seq<string>

    function Env(): Environment
    {
      Environment(filePrefix, alternateFormatsFilePrefix, shortNumberFilePrefix, metadataLoader,
                  countryCodeToRegionCodeMap, countryCodeSet, regionCodeSet)
    }

    function State(): Tables
      reads this
    {
      Tables(regionToMetadataMap, countryCodeToNonGeographicalMetadataMap,
             callingCodeToAlternateFormatsMap, regionCodeToShortNumberMetadataMap)
    }

    constructor (filePrefix: string, alternateFormatsFilePrefix: string, shortNumberFilePrefix: string,
                 metadataLoader: string -> StreamOutcome, countryCodeToRegionCodeMap: map<int, seq<string>>,
                 countryCodeSet: set<int>, regionCodeSet: set<string>)
      ensures Env() == Environment(filePrefix, alternateFormatsFilePrefix, shortNumberFilePrefix, metadataLoader,
                                   countryCodeToRegionCodeMap, countryCodeSet, regionCodeSet)
      ensures State() == EmptyTables && WellFormed(Env(), State())
      ensures Requests == []
    {
      this.filePrefix := filePrefix;
      this.alternateFormatsFilePrefix := alternateFormatsFilePrefix;
      this.shortNumberFilePrefix := shortNumberFilePrefix;
      this.metadataLoader := metadataLoader;
      this.countryCodeToRegionCodeMap := countryCodeToRegionCodeMap;
      this.countryCodeSet := countryCodeSet;
      this.regionCodeSet := regionCodeSet;
      regionToMetadataMap := map[];
      countryCodeToNonGeographicalMetadataMap := map[];
      callingCodeToAlternateFormatsMap := map[];
      regionCodeToShortNumberMetadataMap := map[];
      Requests := [];
    }

    /** The constructor that takes only a loader and uses the bundled prefixes. */
    constructor WithDefaultPrefixes(metadataLoader: string -> StreamOutcome,
                                    countryCodeToRegionCodeMap: map<int, seq<string>>,
                                    countryCodeSet: set<int>, regionCodeSet: set<string>)
      ensures Env() == Environment(MetaDataFilePrefix, AlternateFormatsFilePrefix, ShortNumberMetadataFilePrefix,
                                   metadataLoader, countryCodeToRegionCodeMap, countryCodeSet, regionCodeSet)
      ensures State() == EmptyTables && WellFormed(Env(), State())
      ensures Requests == []
    {
      filePrefix := MetaDataFilePrefix;
      alternateFormatsFilePrefix := AlternateFormatsFilePrefix;
      shortNumberFilePrefix := ShortNumberMetadataFilePrefix;
      this.metadataLoader := metadataLoader;
      this.countryCodeToRegionCodeMap := countryCodeToRegionCodeMap;
      this.countryCodeSet := countryCodeSet;
      this.regionCodeSet := regionCodeSet;
      regionToMetadataMap := map[];
      countryCodeToNonGeographicalMetadataMap := map[];
      callingCodeToAlternateFormatsMap := map[];
      regionCodeToShortNumberMetadataMap := map[];
      Requests := [];
    }

    method GetMetadataForRegion(regionCode: string) returns (o: Outcome<Option<PhoneMetadata>>)
      modifies this
      ensures var s := RegionLookup(Env(), old(State()), regionCode);
              o == s.outcome && State() == s.tables && Requests == old(Requests) + s.requests
    {
      if regionCode !in regionToMetadataMap {
        var loaded := LoadMetadataFromFile(regionCode, 0);
        if loaded.Threw? {
          return Threw(loaded.exception);
        }
      }
      o := Returned(Get(regionToMetadataMap, regionCode));
    }

    method GetMetadataForNonGeographicalRegion(countryCallingCode: int) returns (o: Outcome<Option<PhoneMetadata>>)
      modifies this
      ensures var s := NonGeographicalLookup(Env(), old(State()), countryCallingCode);
              o == s.outcome && State() == s.tables && Requests == old(Requests) + s.requests
    {
      if countryCallingCode !in countryCodeToNonGeographicalMetadataMap {
        if countryCallingCode !in countryCodeToRegionCodeMap {
          // the table answers null, and `regionCodes.size()` dereferences it
          return Threw(NullPointerException);
        }
        var regionCodes := countryCodeToRegionCodeMap[countryCallingCode];
        if IsNonGeoEntity(regionCodes) {
          var loaded := LoadMetadataFromFile(NonGeoEntityRegionCode, countryCallingCode);
          if loaded.Threw? {
            return Threw(loaded.exception);
          }
        }
      }
      o := Returned(Get(countryCodeToNonGeographicalMetadataMap, countryCallingCode));
    }

    method GetAlternateFormatsForCountry(countryCallingCode: int) returns (o: Outcome<Option<PhoneMetadata>>)
      modifies this
      ensures var s := AlternateFormatsLookup(Env(), old(State()), countryCallingCode);
              o == s.outcome && State() == s.tables && Requests == old(Requests) + s.requests
    {
      if countryCallingCode !in countryCodeSet {
        return Returned(None);
      }
      if countryCallingCode !in callingCodeToAlternateFormatsMap {
        var loaded := LoadAlternateFormatsMetadataFromFile(countryCallingCode);
        if loaded.Threw? {
          return Threw(loaded.exception);
        }
      }
      o := Returned(Get(callingCodeToAlternateFormatsMap, countryCallingCode));
    }

    method GetShortNumberMetadataForRegion(regionCode: string) returns (o: Outcome<Option<PhoneMetadata>>)
      modifies this
      ensures var s := ShortNumberLookup(Env(), old(State()), regionCode);
              o == s.outcome && State() == s.tables && Requests == old(Requests) + s.requests
    {
      if regionCode !in regionCodeSet {
        return Returned(None);
      }
      if regionCode !in regionCodeToShortNumberMetadataMap {
        var loaded := LoadShortNumberMetadataFromFile(regionCode);
        if loaded.Threw? {
          return Threw(loaded.exception);
        }
      }
      o := Returned(Get(regionCodeToShortNumberMetadataMap, regionCode));
    }

    /** The two-argument `loadMetadataFromFile`. */
    method LoadMetadataFromFile(regionCode: string, countryCallingCode: int) returns (o: Outcome<()>)
      modifies this
      ensures var s := PrimaryLoad(Env(), old(State()), regionCode, countryCallingCode);
              o == s.outcome && State() == s.tables && Requests == old(Requests) + s.requests
    {
      var isNonGeoRegion := regionCode == NonGeoEntityRegionCode;
      var fileName := ResourceName(filePrefix, if isNonGeoRegion then DecimalString(countryCallingCode) else regionCode);
      var metadataCollection := LoadMetadataCollection(fileName);
      match metadataCollection {
        case Threw(e) =>
          // only an IOException is caught here, and it is rethrown wrapped
          o := if e.IOException? then Threw(RuntimeException("cannot load/parse metadata: " + fileName, e))
               else Threw(e);
        case Returned(metadataList) =>
          if |metadataList| == 0 {
            return Threw(IllegalStateException("empty metadata: " + fileName));
          }
          // more than one record is only logged as a warning
          var metadata := metadataList[0];
          if isNonGeoRegion {
            countryCodeToNonGeographicalMetadataMap :=
              countryCodeToNonGeographicalMetadataMap[countryCallingCode := metadata];
          } else {
            regionToMetadataMap := regionToMetadataMap[regionCode := metadata];
          }
          o := Returned(());
      }
    }

    method LoadAlternateFormatsMetadataFromFile(countryCallingCode: int) returns (o: Outcome<()>)
      modifies this
      ensures var s := AlternateFormatsLoad(Env(), old(State()), countryCallingCode);
              o == s.outcome && State() == s.tables && Requests == old(Requests) + s.requests
    {
      var fileName := ResourceName(alternateFormatsFilePrefix, DecimalString(countryCallingCode));
      var alternateFormats := LoadMetadataCollection(fileName);
      match alternateFormats {
        case Threw(e) =>
          // an IOException is logged and swallowed; anything else propagates
          o := if e.IOException? then Returned(()) else Threw(e);
        case Returned(records) =>
          for i := 0 to |records|
            modifies this`callingCodeToAlternateFormatsMap
            invariant callingCodeToAlternateFormatsMap
                      == PutByCountryCode(old(callingCodeToAlternateFormatsMap), records[..i])
          {
            var metadata := records[i];
            assert records[..i + 1][..i] == records[..i];
            callingCodeToAlternateFormatsMap := callingCodeToAlternateFormatsMap[metadata.countryCode := metadata];
          }
          assert records[..|records|] == records;
          o := Returned(());
      }
    }

    method LoadShortNumberMetadataFromFile(regionCode: string) returns (o: Outcome<()>)
      modifies this
      ensures var s := ShortNumberLoad(Env(), old(State()), regionCode);
              o == s.outcome && State() == s.tables && Requests == old(Requests) + s.requests
    {
      var fileName := ResourceName(shortNumberFilePrefix, regionCode);
      var shortNumberMetadata := LoadMetadataCollection(fileName);
      match shortNumberMetadata {
        case Threw(e) =>
          // an IOException is logged and swallowed; anything else propagates
          o := if e.IOException? then Returned(()) else Threw(e);
        case Returned(records) =>
          for i := 0 to |records|
            modifies this`regionCodeToShortNumberMetadataMap
            invariant regionCodeToShortNumberMetadataMap
                      == PutAllUnder(old(regionCodeToShortNumberMetadataMap), regionCode, records[..i])
          {
            assert records[..i + 1][..i] == records[..i];
            regionCodeToShortNumberMetadataMap := regionCodeToShortNumberMetadataMap[regionCode := records[i]];
          }
          assert records[..|records|] == records;
          o := Returned(());
      }
    }

    /** The one-argument `loadMetadataFromFile`: asks the loader for the file
        and reads the collection from the stream it returns. */
    method LoadMetadataCollection(fileName: string) returns (o: Outcome<seq<PhoneMetadata>>)
      modifies this`Requests
      ensures o == FetchCollection(metadataLoader, fileName)
      ensures Requests == old(Requests) + [fileName]
    {
      Requests := Requests + [fileName];
      var source := metadataLoader(fileName);
      match source {
        case NoStream =>
          o := Threw(IllegalStateException("missing metadata: " + fileName));
        case HeaderError(detail) =>
          o := Threw(IOException(detail));
        case Opened(read) =>
          o := Returned(LoadMetadataAndCloseInput(read));
      }
    }
  }
}
