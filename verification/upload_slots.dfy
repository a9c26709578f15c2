/** The per-file result update of the two-image upload loop, shared by the
    two-odometer page and the plain OCR page: the four result slots are
    cleared, then each file's OCR response (or the error it raised) is
    written into its own pair of slots. */
module UploadSlots {
  import opened Wrappers
  import opened Chars
  import Mileage

  /** Stored in a mileage slot when no reading was found. */
  const NotFoundText: string := "ไม่พบเลขไมล์"

  /** Prefix of the text stored in both slots of a file whose request failed. */
  const ErrorPrefix: string := "เกิดข้อผิดพลาด: "

  /** The mileage and OCR-text state values of one file. */
  datatype Slot = Slot(mileage: Option<string>, ocr: Option<string>)

  /** `mileage1`/`ocr1` and `mileage2`/`ocr2`. */
  datatype Slots = Slots(first: Slot, second: Slot)

  /** What the `try` block of one file came to: the OCR service answered,
      with the `choices[0].message.content` string or without one, or
      something in the block threw with the given `message`. */
  datatype Response = Responded(content: Option<string>) | Failed(message: string)

  /** What happened to one file: its image was converted to base64 and sent,
      or the conversion, which runs before the `try`, rejected. A rejection
      escapes `handleUpload`: the loop stops there and the file's slots,
      and those of any later file, are never written. */
  datatype Outcome = Converted(response: Response) | Unconverted

  /** The slots as `handleUpload` leaves them before its loop. */
  function Cleared(): (r: Slots)
    ensures r.first.mileage.None? && r.first.ocr.None?
    ensures r.second.mileage.None? && r.second.ocr.None?
  {
    Slots(Slot(None, None), Slot(None, None))
  }

  /** `content?.trim() || ''`, then a JSON `natural_text` unwrapped: the
      unwrapping sees the content with its white space trimmed, or the empty
      string when there is no content. */
  function OcrTextOf(parse: Mileage.JsonOracle, content: Option<string>): (r: string)
    ensures content.None? ==> r == Mileage.WorkingText(parse, "")
    ensures content.Some? ==>
              forall t :: IsTrimOf(IsJsSpace, content.value, t) ==> r == Mileage.WorkingText(parse, t)
  {
    if content.Some? then
      TrimByIsTheTrim(IsJsSpace, content.value);
      Mileage.WorkingText(parse, TrimBy(IsJsSpace, content.value))
    else
      Mileage.WorkingText(parse, "")
  }

  /** `extractMileage(ocrText) || 'ไม่พบเลขไมล์'`. A found reading is never
      the empty string, so `||` replaces exactly the `null` result. */
  function MileageOrPlaceholder(parse: Mileage.JsonOracle, ocrText: string): (r: string)
    ensures r == NotFoundText <==> Mileage.ExtractMileage(parse, ocrText).None?
    ensures r != NotFoundText ==> AllDigits(r) && 4 <= |r| <= 6
  {
    match Mileage.ExtractMileage(parse, ocrText)
    case Some(v) =>
      assert v != NotFoundText by { assert IsDigit(v[0]) && !IsDigit(NotFoundText[0]); }
      v
    case None => NotFoundText
  }

  /** What file `i` writes into its own slot pair. */
  function SlotFor(parse: Mileage.JsonOracle, o: Response): (r: Slot)
    ensures o.Failed? ==> r.mileage == r.ocr == Some(ErrorPrefix + o.message)
    ensures o.Responded? ==>
              var text := OcrTextOf(parse, o.content);
              && r.ocr == Some(text)
              && r.mileage.Some?
              && (r.mileage.value == NotFoundText <==> Mileage.ExtractMileage(parse, text).None?)
              && (r.mileage.value != NotFoundText ==> r.mileage == Mileage.ExtractMileage(parse, text))
  {
    match o
    case Responded(content) =>
      var text := OcrTextOf(parse, content);
      Slot(Some(MileageOrPlaceholder(parse, text)), Some(text))
    case Failed(message) =>
      var fallback := ErrorPrefix + message;
      Slot(Some(fallback), Some(fallback))
  }

  /** One iteration of the loop: file `i` (0 for the first file, any other
      index for the second) records its response in its own slot pair; the
      other pair is left as it was, and a file whose conversion rejected
      writes nothing. */
  function Record(parse: Mileage.JsonOracle, s: Slots, i: nat, o: Outcome): (r: Slots)
    ensures o.Unconverted? ==> r == s
    ensures o.Converted? && i == 0 ==> r.first == SlotFor(parse, o.response) && r.second == s.second
    ensures o.Converted? && i != 0 ==> r.second == SlotFor(parse, o.response) && r.first == s.first
  {
    match o
    case Unconverted => s
    case Converted(response) =>
      if i == 0 then s.(first := SlotFor(parse, response)) else s.(second := SlotFor(parse, response))
  }

  /** The whole loop after the reset, for two files. A first file whose
      conversion rejects ends the loop before the second is looked at. */
  function ProcessUpload(parse: Mileage.JsonOracle, o1: Outcome, o2: Outcome): (r: Slots)
    ensures o1.Unconverted? ==> r == Cleared()
    ensures o1.Converted? ==> r.first == SlotFor(parse, o1.response)
    ensures o1.Converted? && o2.Converted? ==> r.second == SlotFor(parse, o2.response)
    ensures o2.Unconverted? ==> r.second == Cleared().second
    ensures (r.first.mileage.Some? && r.second.mileage.Some?) <==> o1.Converted? && o2.Converted?
    ensures (r.first.ocr.Some? && r.second.ocr.Some?) <==> o1.Converted? && o2.Converted?
  {
    if o1.Unconverted? then Cleared()
    else Record(parse, Record(parse, Cleared(), 0, o1), 1, o2)
  }

  /** The first file's slots depend on its own outcome only. The second
      file's slots depend on the first file only through whether its
      conversion rejected, which leaves them empty. */
  lemma SlotsIndependent(parse: Mileage.JsonOracle, o1: Outcome, o2: Outcome, o1': Outcome, o2': Outcome)
    ensures ProcessUpload(parse, o1, o2).first == ProcessUpload(parse, o1, o2').first
    ensures o1.Converted? && o1'.Converted? ==>
              ProcessUpload(parse, o1, o2).second == ProcessUpload(parse, o1', o2).second
    ensures o1.Unconverted? ==> ProcessUpload(parse, o1, o2).second == Slot(None, None)
  {
  }

  /** Recording is order-independent across the two files. */
  lemma RecordCommutes(parse: Mileage.JsonOracle, s: Slots, o1: Outcome, o2: Outcome)
    ensures Record(parse, Record(parse, s, 0, o1), 1, o2) == Record(parse, Record(parse, s, 1, o2), 0, o1)
  {
  }
}
