/** The plain OCR page's copy of `extractMileage`, which logs each step to
    the console. Its result is the same function as the two-odometer page's
    copy; the console lines it writes are returned alongside. */
module OcrPage {
  import opened Wrappers
  import opened Chars
  import Mileage
  import OdoPattern
  import StandalonePattern

  /** The `console.log` lines of `extractMileage`, in the order written. */
  datatype LogLine =
    | RawText(text: string)
    | NotValidJson
    | ByOdoPattern(reading: string)
    | ByFallback(reading: string)
    | MileageNotFound

  /** The `JSON.parse` step: the text the patterns run on, and the line
      logged when the text is not JSON. */
  method UnwrapLogged(parse: Mileage.JsonOracle, text: string) returns (w: string, log: seq<LogLine>)
    ensures w == Mileage.WorkingText(parse, text)
    ensures log == if parse(text).NotJson? then [NotValidJson] else []
  {
    w, log := text, [];
    match parse(text) {
      case NotJson =>
        log := [NotValidJson];
      case Json(naturalText) =>
        if naturalText.Some? && naturalText.value != "" {
          w := naturalText.value;
        }
    }
  }

  /** The two patterns, each logging the reading it found, or the
      not-found line. */
  method MatchLogged(w: string) returns (r: Option<string>, line: LogLine)
    ensures r == Mileage.ExtractFromText(w)
    ensures line == MileageNotFound <==> r.None?
    ensures line.ByOdoPattern? <==> OdoPattern.HasMatch(w)
    ensures r.Some? ==> line == ByOdoPattern(r.value) || line == ByFallback(r.value)
  {
    var matchOdo := OdoPattern.FindAnchored(w);
    if matchOdo.Some? {
      var reading := w[matchOdo.value.gapEnd..matchOdo.value.end];
      return Some(reading), ByOdoPattern(reading);
    }
    var fallback := StandalonePattern.FindStandalone(w);
    if fallback.Some? {
      var reading := w[fallback.value.start..fallback.value.end];
      return Some(reading), ByFallback(reading);
    }
    return None, MileageNotFound;
  }

  /** `extractMileage` with its console trace. */
  method ExtractMileageLogged(parse: Mileage.JsonOracle, text: string) returns (r: Option<string>, log: seq<LogLine>)
    ensures r == Mileage.ExtractMileage(parse, text)
    ensures |log| >= 2 && log[0] == RawText(text)
    ensures NotValidJson in log <==> parse(text).NotJson?
    ensures log[|log| - 1] == MileageNotFound <==> r.None?
    ensures r.Some? ==> log[|log| - 1] == ByOdoPattern(r.value) || log[|log| - 1] == ByFallback(r.value)
    ensures log[|log| - 1].ByOdoPattern? <==> OdoPattern.HasMatch(Mileage.WorkingText(parse, text))
  {
    var w, jsonLog := UnwrapLogged(parse, text);
    var line;
    r, line := MatchLogged(w);
    log := [RawText(text)] + jsonLog + [line];
  }
}
