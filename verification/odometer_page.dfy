/** The two-odometer page as a whole: an upload fills the four result slots,
    then the reconciliation effect runs on the two mileage slots. The
    distance and cost shown on the page are not cleared by an upload. */
module OdometerPage {
  import opened Wrappers
  import opened Chars
  import opened JsNumbers
  import Mileage
  import OdoPattern
  import TripReconciler
  import UploadSlots

  /** The result slots plus the `totalDistance`/`totalCost` and `loading`
      state values. */
  datatype Page = Page(slots: UploadSlots.Slots, distance: Option<int>, cost: Option<int>, loading: bool)

  /** One run of the reconciliation effect: the new page, and whether the
      over-limit alert was raised. */
  function Settle(p: Page): (r: (Page, bool))
    ensures var t := TripReconciler.Reconcile(p.slots.first.mileage, p.slots.second.mileage);
            && (t.None? ==> r == (p, false))
            && (t.Some? ==>
                  && r.0.distance == Some(t.value.distance) && r.0.cost == Some(t.value.cost)
                  && (r.0.slots.first.mileage, r.0.slots.second.mileage) == TripReconciler.RewrittenSlots(t.value)
                  && r.0.slots.first.ocr == p.slots.first.ocr && r.0.slots.second.ocr == p.slots.second.ocr
                  && r.0.loading == p.loading
                  && r.1 == t.value.overLimit)
  {
    match TripReconciler.Reconcile(p.slots.first.mileage, p.slots.second.mileage)
    case None => (p, false)
    case Some(t) =>
      var (m1, m2) := TripReconciler.RewrittenSlots(t);
      var slots := UploadSlots.Slots(p.slots.first.(mileage := m1), p.slots.second.(mileage := m2));
      (Page(slots, Some(t.distance), Some(t.cost), p.loading), t.overLimit)
  }

  /** The rerun the effect's own writes trigger leaves the page as it is, and
      raises the alert again exactly when the first run did. */
  lemma SettleRerun(p: Page)
    ensures Settle(Settle(p).0) == Settle(p)
  {
    var t := TripReconciler.Reconcile(p.slots.first.mileage, p.slots.second.mileage);
    if t.Some? {
      TripReconciler.ReconcileIdempotent(p.slots.first.mileage, p.slots.second.mileage);
    }
  }

  /** `handleUpload` for two files, followed by the effect: the slots are
      cleared and refilled, the totals stay until a reconciliation replaces
      them, and `loading` is left on when a conversion rejected, since the
      rejection skips `setLoading(false)`. */
  function Upload(parse: Mileage.JsonOracle, p: Page, o1: UploadSlots.Outcome, o2: UploadSlots.Outcome): (r: (Page, bool))
    ensures r.0.loading <==> o1.Unconverted? || o2.Unconverted?
    ensures var slots := UploadSlots.ProcessUpload(parse, o1, o2);
            TripReconciler.Reconcile(slots.first.mileage, slots.second.mileage).None? ==>
              r.0.slots == slots && r.0.distance == p.distance && r.0.cost == p.cost && !r.1
    ensures var slots := UploadSlots.ProcessUpload(parse, o1, o2);
            var t := TripReconciler.Reconcile(slots.first.mileage, slots.second.mileage);
            t.Some? ==>
              && r.0.distance == Some(t.value.distance) && r.0.cost == Some(t.value.cost)
              && (r.0.slots.first.mileage, r.0.slots.second.mileage) == TripReconciler.RewrittenSlots(t.value)
              && r.0.slots.first.ocr == slots.first.ocr && r.0.slots.second.ocr == slots.second.ocr
              && r.1 == t.value.overLimit
  {
    var loading := o1.Unconverted? || o2.Unconverted?;
    Settle(Page(UploadSlots.ProcessUpload(parse, o1, o2), p.distance, p.cost, loading))
  }

  /** Neither placeholder is a number to `parseInt`: both begin with a Thai
      letter. */
  lemma PlaceholdersDoNotParse(message: string)
    ensures ParseInt(UploadSlots.NotFoundText).None?
    ensures ParseInt(UploadSlots.ErrorPrefix + message).None?
  {
    assert UploadSlots.NotFoundText[0] == 'ไ';
    assert (UploadSlots.ErrorPrefix + message)[0] == 'เ';
    assert !IsJsSpace('ไ') && !IsJsSpace('เ');
  }

  /** A failed file, a file whose conversion rejected, or a file in which no
      reading was found keeps the trip from being computed: the page keeps
      the distance and cost of the previous upload and raises no alert. */
  lemma PlaceholderSuppressesTrip(parse: Mileage.JsonOracle, p: Page, o1: UploadSlots.Outcome, o2: UploadSlots.Outcome)
    requires var slots := UploadSlots.ProcessUpload(parse, o1, o2);
             || slots.first.mileage == Some(UploadSlots.NotFoundText) || !Succeeded(o1)
             || slots.second.mileage == Some(UploadSlots.NotFoundText) || !Succeeded(o2)
    ensures Upload(parse, p, o1, o2).0.distance == p.distance
    ensures Upload(parse, p, o1, o2).0.cost == p.cost
    ensures !Upload(parse, p, o1, o2).1
  {
    PlaceholdersDoNotParse(FailureMessage(o1));
    PlaceholdersDoNotParse(FailureMessage(o2));
  }

  /** The file was converted and its request did not throw. */
  predicate Succeeded(o: UploadSlots.Outcome) {
    o.Converted? && o.response.Responded?
  }

  function FailureMessage(o: UploadSlots.Outcome): string {
    if o.Converted? && o.response.Failed? then o.response.message else ""
  }

  /** The OCR answer of the scenario below. */
  const SampleAnswer: string := "{\"natural_text\":\"ODO: 088213 km\"}"

  /** Its `natural_text`. */
  const SampleText: string := "ODO: 088213 km"

  lemma SampleTextReading()
    ensures Mileage.ExtractFromText(SampleText) == Some("088213")
  {
    assert SampleText == "ODO" + ": " + "088213" + " km";
    assert forall j :: 0 <= j < 3 ==> LowerAscii("ODO"[j]) == "odo"[j];
    assert Utf16Length(": ") == 2;
    Mileage.LeadingOdoCaptured("ODO", ": ", "088213", " km");
    assert "088213"[..OdoPattern.Min(6, 6)] == "088213";
  }

  lemma SampleAnswerSlot(parse: Mileage.JsonOracle)
    requires parse(SampleAnswer) == Mileage.Json(Some(SampleText))
    requires parse(SampleText) == Mileage.NotJson
    ensures UploadSlots.SlotFor(parse, UploadSlots.Responded(Some(SampleAnswer)))
            == UploadSlots.Slot(Some("088213"), Some(SampleText))
  {
    assert SampleAnswer[0] == '{' && SampleAnswer[|SampleAnswer| - 1] == '}';
    TrimByUnpadded(IsJsSpace, SampleAnswer);
    assert UploadSlots.OcrTextOf(parse, Some(SampleAnswer)) == SampleText;
    SampleTextReading();
    assert Mileage.ExtractMileage(parse, SampleText) == Some("088213");
  }

  /** An upload where the first file's OCR answer is the JSON text
      `{"natural_text":"ODO: 088213 km"}` and the second request fails:
      the first slot reads "088213", the second holds the error text in
      both places, and no trip is computed. */
  lemma ReadingThenFailure(parse: Mileage.JsonOracle, p: Page, message: string)
    requires parse(SampleAnswer) == Mileage.Json(Some(SampleText))
    requires parse(SampleText) == Mileage.NotJson
    ensures var failed := Some(UploadSlots.ErrorPrefix + message);
            Upload(parse, p, UploadSlots.Converted(UploadSlots.Responded(Some(SampleAnswer))),
                   UploadSlots.Converted(UploadSlots.Failed(message)))
            == (Page(UploadSlots.Slots(UploadSlots.Slot(Some("088213"), Some(SampleText)),
                                       UploadSlots.Slot(failed, failed)),
                     p.distance, p.cost, false),
                false)
  {
    var o1 := UploadSlots.Converted(UploadSlots.Responded(Some(SampleAnswer)));
    var o2 := UploadSlots.Converted(UploadSlots.Failed(message));
    var slots := UploadSlots.ProcessUpload(parse, o1, o2);
    SampleAnswerSlot(parse);
    PlaceholdersDoNotParse(message);
    assert TripReconciler.Reconcile(slots.first.mileage, slots.second.mileage).None?;
  }
}
