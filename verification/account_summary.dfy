/** `summarize_advanced` of the accounting-summary script, from the matched
    header groups and entry tuples onwards: header defaults, exact decimal
    amounts, per-code totals in first-seen order, the clearing-account
    debit and credit sums, the balance check and the insight list. */
module AccountSummary {
  import opened Wrappers
  import opened Chars

  /** Stored for a header field whose pattern did not match. */
  const Missing: string := "ไม่พบ"

  /** Stored for `total` when the `TOTALS` pattern did not match. */
  const NoTotal: string := "0.00"

  /** Codes starting with this are looked at for debit and credit. */
  const ClearingPrefix: string := "21"
  const DebitPrefix: string := "2154"
  const CreditPrefix: string := "2111"

  const BalancedMsg: string := "✅ บัญชีสมดุล เดบิตและเครดิตตรงกัน"
  const UnbalancedMsg: string := "⚠️ บัญชีไม่สมดุล กรุณาตรวจสอบ"
  const AdvanceMsg: string := "📌 รายการเกี่ยวกับการคืนเงินค่าใช้จ่ายส่วนเกิน (Advance)"
  const InstrumentationMsg: string := "🔧 เกี่ยวข้องกับงาน Instrumentation หลายโครงการ"
  const PurchaseTaxMsg: string := "🧾 ไม่มีการบันทึกภาษีซื้อในการชำระครั้งนี้"

  const AdvanceWord: string := "ADV"
  const InstrumentationWord: string := "Instrumentation"
  const PurchaseTaxWord: string := "ภาษีซื้อ"
  const ZeroAmountWord: string := "0.00"

  /** Python's `str.strip()`. */
  function Strip(s: string): (r: string)
    ensures IsTrimOf(IsPySpace, s, r)
  {
    TrimBy(IsPySpace, s)
  }

  /* ---------------- header ---------------- */

  /** The first capture group of each header pattern, `None` where the
      pattern did not match. */
  datatype HeaderMatches = HeaderMatches(
    company: Option<string>, payee: Option<string>, date: Option<string>,
    docNo: Option<string>, total: Option<string>)

  datatype Header = Header(company: string, payee: string, date: string, docNo: string, total: string)

  /** A matched group, stripped, or the default. */
  function FieldOr(g: Option<string>, default: string): (r: string)
    ensures g.None? ==> r == default
    ensures g.Some? ==> IsTrimOf(IsPySpace, g.value, r)
  {
    if g.Some? then Strip(g.value) else default
  }

  /** The header part of the summary. */
  function HeaderOf(m: HeaderMatches): (h: Header)
    ensures m.company.None? ==> h.company == Missing
    ensures m.payee.None? ==> h.payee == Missing
    ensures m.date.None? ==> h.date == Missing
    ensures m.docNo.None? ==> h.docNo == Missing
    ensures m.total.None? ==> h.total == NoTotal
    ensures m.company.Some? ==> IsTrimOf(IsPySpace, m.company.value, h.company)
    ensures m.payee.Some? ==> IsTrimOf(IsPySpace, m.payee.value, h.payee)
    ensures m.date.Some? ==> IsTrimOf(IsPySpace, m.date.value, h.date)
    ensures m.docNo.Some? ==> IsTrimOf(IsPySpace, m.docNo.value, h.docNo)
    ensures m.total.Some? ==> IsTrimOf(IsPySpace, m.total.value, h.total)
  {
    Header(FieldOr(m.company, Missing), FieldOr(m.payee, Missing), FieldOr(m.date, Missing),
           FieldOr(m.docNo, Missing), FieldOr(m.total, NoTotal))
  }

  /* ---------------- amounts ---------------- */

  /** A decimal digit as Python's `Decimal` reads it, restricted to the
      ASCII and Thai digits. */
  predicate IsDecDigit(c: char) {
    ('0' <= c <= '9') || ('๐' <= c <= '๙')
  }

  predicate AllDecDigits(s: string) {
    forall i :: 0 <= i < |s| ==> IsDecDigit(s[i])
  }

  function DecDigitValue(c: char): (d: nat)
    requires IsDecDigit(c)
    ensures d < 10
  {
    if '0' <= c <= '9' then c as int - '0' as int else c as int - '๐' as int
  }

  /** The value of a digit string, most significant digit first. */
  function DecValue(s: string): nat
    requires AllDecDigits(s)
  {
    if s == [] then 0 else 10 * DecValue(s[..|s| - 1]) + DecDigitValue(s[|s| - 1])
  }

  function Pow10(n: nat): (p: nat)
    ensures p >= 1
  {
    if n == 0 then 1 else 10 * Pow10(n - 1)
  }

  /** `s.replace(',', '')`. */
  function RemoveCommas(s: string): (r: string)
    ensures forall i :: 0 <= i < |r| ==> r[i] != ','
    ensures |r| <= |s|
  {
    if s == [] then []
    else if s[0] == ',' then RemoveCommas(s[1..])
    else [s[0]] + RemoveCommas(s[1..])
  }

  /** Index of the first `.` in `s`, or `|s|` if there is none. */
  function DotIndex(s: string): (k: nat)
    ensures k <= |s|
    ensures k < |s| ==> s[k] == '.'
    ensures forall i :: 0 <= i < k ==> s[i] != '.'
  {
    if s == [] then 0 else if s[0] == '.' then 0 else 1 + DotIndex(s[1..])
  }

  /** The value of `int.frac` with the given digit strings. */
  function DecimalOf(ip: string, fp: string): real
    requires AllDecDigits(ip) && AllDecDigits(fp)
  {
    DecValue(ip) as real + DecValue(fp) as real / Pow10(|fp|) as real
  }

  /** `Decimal(s)` for plain unsigned decimals: digits, optionally a point
      and more digits, at least one digit in all. Anything else is
      `InvalidOperation`, here `None`. */
  function ParseDecimal(s: string): (r: Option<real>)
    ensures r.Some? ==> r.value >= 0.0
    ensures r.Some? ==> exists i :: 0 <= i < |s| && IsDecDigit(s[i])
  {
    var k := DotIndex(s);
    var ip := s[..k];
    var fp := if k < |s| then s[k + 1..] else [];
    if AllDecDigits(ip) && AllDecDigits(fp) && |ip| + |fp| > 0 then
      assert |ip| > 0 ==> s[0] == ip[0];
      assert |ip| == 0 ==> s[k + 1] == fp[0];
      Some(DecimalOf(ip, fp))
    else None
  }

  /** An entry's amount: 0 for an empty group, the decimal read after the
      commas are dropped, or 0 when that is not a decimal. */
  function AmountOf(amountText: string): (a: real)
    ensures a >= 0.0
    ensures amountText == [] ==> a == 0.0
  {
    if amountText == [] then 0.0
    else ParseDecimal(RemoveCommas(amountText)).GetOr(0.0)
  }

  /** The text of the amount group of an entry line, `[\d,]+\.\d+`, split
      at its point. */
  predicate IsAmountShape(ip: string, fp: string) {
    && |ip| > 0 && (forall i :: 0 <= i < |ip| ==> IsDecDigit(ip[i]) || ip[i] == ',')
    && |fp| > 0 && AllDecDigits(fp)
  }

  /** Removing commas keeps the other characters in order. */
  lemma {:induction false} RemoveCommasAppend(a: string, b: string)
    ensures RemoveCommas(a + b) == RemoveCommas(a) + RemoveCommas(b)
    decreases |a|
  {
    if a == [] {
      assert a + b == b;
    } else {
      assert (a + b)[0] == a[0] && (a + b)[1..] == a[1..] + b;
      RemoveCommasAppend(a[1..], b);
      if a[0] == ',' {
        assert RemoveCommas(a + b) == RemoveCommas(a[1..] + b);
        assert RemoveCommas(a) == RemoveCommas(a[1..]);
      } else {
        assert RemoveCommas(a + b) == [a[0]] + RemoveCommas(a[1..] + b);
        assert RemoveCommas(a) == [a[0]] + RemoveCommas(a[1..]);
        assert [a[0]] + (RemoveCommas(a[1..]) + RemoveCommas(b)) == ([a[0]] + RemoveCommas(a[1..])) + RemoveCommas(b);
      }
    }
  }

  /** Without commas, a digits-and-commas string is all digits. */
  lemma {:induction false} RemoveCommasOfDigits(s: string)
    requires forall i :: 0 <= i < |s| ==> IsDecDigit(s[i]) || s[i] == ','
    ensures AllDecDigits(RemoveCommas(s))
    decreases |s|
  {
    if s != [] {
      RemoveCommasOfDigits(s[1..]);
    }
  }

  /** A string without commas is left as it is. */
  lemma {:induction false} RemoveCommasNone(s: string)
    requires forall i :: 0 <= i < |s| ==> s[i] != ','
    ensures RemoveCommas(s) == s
    decreases |s|
  {
    if s != [] {
      RemoveCommasNone(s[1..]);
    }
  }

  /** `Decimal` reads `int.frac` as `int + frac / 10^|frac|`. */
  lemma ParseDecimalOfParts(ip: string, fp: string)
    requires AllDecDigits(ip) && AllDecDigits(fp) && |fp| > 0
    ensures ParseDecimal(ip + "." + fp) == Some(DecimalOf(ip, fp))
  {
    var s := ip + "." + fp;
    forall i | 0 <= i < |ip| ensures s[i] != '.' { assert s[i] == ip[i]; }
    assert s[|ip|] == '.';
    assert s[..|ip|] == ip;
    assert s[|ip| + 1..] == fp;
  }

  /** Whatever the entry pattern captures as an amount is a decimal: the
      `InvalidOperation` branch is never taken for it, and the amount is the
      digits before the point, commas dropped, plus the fraction. */
  lemma EntryAmountParses(ip: string, fp: string)
    requires IsAmountShape(ip, fp)
    ensures AllDecDigits(RemoveCommas(ip))
    ensures AmountOf(ip + "." + fp) == DecimalOf(RemoveCommas(ip), fp)
  {
    RemoveCommasOfDigits(ip);
    CommasOnlyBeforePoint(ip, fp);
    ParseDecimalOfParts(RemoveCommas(ip), fp);
  }

  /** Only the integer part of an amount can hold commas. */
  lemma CommasOnlyBeforePoint(ip: string, fp: string)
    requires AllDecDigits(fp)
    ensures RemoveCommas(ip + "." + fp) == RemoveCommas(ip) + "." + fp
  {
    var rest := "." + fp;
    forall i | 0 <= i < |rest| ensures rest[i] != ',' {
      if i > 0 { assert rest[i] == fp[i - 1]; }
    }
    RemoveCommasNone(rest);
    RemoveCommasAppend(ip, rest);
    assert ip + "." + fp == ip + rest;
    assert RemoveCommas(ip) + rest == RemoveCommas(ip) + "." + fp;
  }


  /* ---------------- entries and totals ---------------- */

  /** One matched entry tuple `(line, code, desc, note, amount_str)`;
      `amountText` is empty where the optional amount group did not match. */
  datatype Entry = Entry(line: string, code: string, desc: string, note: string, amountText: string)

  datatype ParsedEntry = ParsedEntry(line: string, code: string, description: string, note: string, amount: real)

  /** The record appended to `parsed_entries` for an entry. */
  function ParseEntry(e: Entry): ParsedEntry {
    ParsedEntry(e.line, e.code, Strip(e.desc), Strip(e.note), AmountOf(e.amountText))
  }

  /** A record keeps the line and code as matched, strips description and
      note, and reads the amount. */
  lemma ParseEntryFields(e: Entry)
    ensures ParseEntry(e).line == e.line && ParseEntry(e).code == e.code
    ensures IsTrimOf(IsPySpace, e.desc, ParseEntry(e).description)
    ensures IsTrimOf(IsPySpace, e.note, ParseEntry(e).note)
    ensures ParseEntry(e).amount == AmountOf(e.amountText) >= 0.0
  {
  }

  /** `parsed_entries`: one record per entry, in order. */
  function ParseAll(es: seq<Entry>): (ps: seq<ParsedEntry>)
    ensures |ps| == |es|
  {
    if es == [] then [] else ParseAll(es[..|es| - 1]) + [ParseEntry(es[|es| - 1])]
  }

  /** Record `k` of `parsed_entries` is made from entry `k`. */
  lemma {:induction false} ParseAllAt(es: seq<Entry>, k: nat)
    requires k < |es|
    ensures ParseAll(es)[k] == ParseEntry(es[k])
    decreases |es|
  {
    if k < |es| - 1 {
      ParseAllAt(es[..|es| - 1], k);
    }
  }


  /** Python's `str.startswith`. */
  predicate StartsWith(s: string, prefix: string) {
    |prefix| <= |s| && s[..|prefix|] == prefix
  }

  /** Which entries a sum takes in. */
  datatype Filter = AnyCode | CodeIs(code: string) | CodePrefix(prefix: string)

  predicate Selects(f: Filter, code: string) {
    match f
    case AnyCode => true
    case CodeIs(c) => code == c
    case CodePrefix(p) => StartsWith(code, p)
  }

  /** The sum of the amounts of the entries `f` selects: the reference the
      loop's running sums are checked against. */
  function SumWhere(es: seq<Entry>, f: Filter): real {
    if es == [] then 0.0
    else
      var last := es[|es| - 1];
      SumWhere(es[..|es| - 1], f) + (if Selects(f, last.code) then AmountOf(last.amountText) else 0.0)
  }

  /** `account_totals`: an insertion-ordered map from code to running sum. */
  type Totals = seq<(string, real)>

  function Keys(t: Totals): (ks: seq<string>)
    ensures |ks| == |t| && forall i :: 0 <= i < |t| ==> ks[i] == t[i].0
  {
    if t == [] then [] else [t[0].0] + Keys(t[1..])
  }

  predicate DistinctKeys(t: Totals) {
    forall i, j :: 0 <= i < j < |t| ==> t[i].0 != t[j].0
  }

  /** `account_totals.get(code, Decimal(0))`. */
  function Lookup(t: Totals, code: string): real {
    if t == [] then 0.0 else if t[0].0 == code then t[0].1 else Lookup(t[1..], code)
  }

  function SumValues(t: Totals): real {
    if t == [] then 0.0 else t[0].1 + SumValues(t[1..])
  }

  /** `account_totals[code] = account_totals.get(code, Decimal(0)) + amount`:
      an existing key keeps its place, a new key goes last. */
  function AddTo(t: Totals, code: string, amount: real): (r: Totals)
    ensures |r| == |t| || |r| == |t| + 1
  {
    if t == [] then [(code, amount)]
    else if t[0].0 == code then [(code, t[0].1 + amount)] + t[1..]
    else [t[0]] + AddTo(t[1..], code, amount)
  }

  lemma {:induction false} AddToLookup(t: Totals, code: string, amount: real, c: string)
    ensures Lookup(AddTo(t, code, amount), c) == Lookup(t, c) + (if c == code then amount else 0.0)
    decreases |t|
  {
    if t != [] && t[0].0 != code {
      assert AddTo(t, code, amount)[1..] == AddTo(t[1..], code, amount);
      AddToLookup(t[1..], code, amount, c);
    }
  }

  /** Adding to a key, new or old, adds to the sum over all keys. */
  lemma {:induction false} AddToSum(t: Totals, code: string, amount: real)
    ensures SumValues(AddTo(t, code, amount)) == SumValues(t) + amount
    decreases |t|
  {
    if t != [] && t[0].0 != code {
      assert AddTo(t, code, amount)[1..] == AddTo(t[1..], code, amount);
      AddToSum(t[1..], code, amount);
    } else if t != [] {
      assert AddTo(t, code, amount)[1..] == t[1..];
    }
  }

  /** Keys stay distinct, an existing key stays where it was and a new key is
      appended. */
  lemma {:induction false} AddToKeys(t: Totals, code: string, amount: real)
    requires DistinctKeys(t)
    ensures DistinctKeys(AddTo(t, code, amount))
    ensures code in Keys(t) ==> Keys(AddTo(t, code, amount)) == Keys(t)
    ensures code !in Keys(t) ==> Keys(AddTo(t, code, amount)) == Keys(t) + [code]
    decreases |t|
  {
    var r := AddTo(t, code, amount);
    if t == [] {
    } else if t[0].0 == code {
      assert Keys(r) == Keys(t);
    } else {
      AddToKeys(t[1..], code, amount);
      assert r[1..] == AddTo(t[1..], code, amount);
      assert code in Keys(t) <==> code in Keys(t[1..]);
      assert Keys(r) == [t[0].0] + Keys(r[1..]);
      assert Keys(t) == [t[0].0] + Keys(t[1..]);
      forall i, j | 0 <= i < j < |r| ensures r[i].0 != r[j].0 {
        if i == 0 {
          assert r[j].0 in Keys(r[1..]);
          assert r[j].0 == code || r[j].0 in Keys(t[1..]);
        }
      }
    }
  }

  /** The totals after the loop has seen `es`. */
  function TotalsOf(es: seq<Entry>): Totals {
    if es == [] then []
    else
      var last := es[|es| - 1];
      AddTo(TotalsOf(es[..|es| - 1]), last.code, AmountOf(last.amountText))
  }

  /** A code's total is the sum over the entries with that code. */
  lemma {:induction false} TotalsLookup(es: seq<Entry>, c: string)
    ensures Lookup(TotalsOf(es), c) == SumWhere(es, CodeIs(c))
    decreases |es|
  {
    if es != [] {
      var last := es[|es| - 1];
      TotalsLookup(es[..|es| - 1], c);
      AddToLookup(TotalsOf(es[..|es| - 1]), last.code, AmountOf(last.amountText), c);
    }
  }

  /** The totals of all codes add up to the sum of all amounts. */
  lemma {:induction false} TotalsSum(es: seq<Entry>)
    ensures SumValues(TotalsOf(es)) == SumWhere(es, AnyCode)
    decreases |es|
  {
    if es != [] {
      var last := es[|es| - 1];
      TotalsSum(es[..|es| - 1]);
      AddToSum(TotalsOf(es[..|es| - 1]), last.code, AmountOf(last.amountText));
    }
  }

  /** Some entry of `es` has code `c`. */
  ghost predicate HasCode(es: seq<Entry>, c: string) {
    exists k :: 0 <= k < |es| && es[k].code == c
  }

  lemma HasCodeStep(es: seq<Entry>, c: string)
    requires es != []
    ensures HasCode(es, c) <==> HasCode(es[..|es| - 1], c) || es[|es| - 1].code == c
  {
    var init := es[..|es| - 1];
    if HasCode(es, c) && es[|es| - 1].code != c {
      var k :| 0 <= k < |es| && es[k].code == c;
      assert init[k].code == c;
    }
    if HasCode(init, c) {
      var k :| 0 <= k < |init| && init[k].code == c;
      assert es[k].code == c;
    }
  }

  /** The totals have one key per code that occurs, each once. */
  lemma {:induction false} TotalsKeys(es: seq<Entry>)
    ensures DistinctKeys(TotalsOf(es))
    ensures forall c :: c in Keys(TotalsOf(es)) <==> HasCode(es, c)
    decreases |es|
  {
    if es != [] {
      var init := es[..|es| - 1];
      var last := es[|es| - 1];
      TotalsKeys(init);
      AddToKeys(TotalsOf(init), last.code, AmountOf(last.amountText));
      forall c ensures c in Keys(TotalsOf(es)) <==> HasCode(es, c) {
        HasCodeStep(es, c);
      }
    }
  }

  /* ---------------- summary ---------------- */

  datatype Summary = Summary(
    header: Header,
    entries: seq<ParsedEntry>,
    totals: Totals,
    debit: real,
    credit: real,
    balanceOk: bool,
    insights: seq<string>)

  /** A debit code is never a credit code, and both lie under the clearing
      prefix the script checks first. */
  lemma PrefixesNest(code: string)
    ensures StartsWith(code, DebitPrefix) ==> StartsWith(code, ClearingPrefix)
    ensures StartsWith(code, CreditPrefix) ==> StartsWith(code, ClearingPrefix)
    ensures !(StartsWith(code, DebitPrefix) && StartsWith(code, CreditPrefix))
  {
    if StartsWith(code, DebitPrefix) {
      assert code[..2] == code[..4][..2];
      assert code[2] == code[..4][2] == '5';
    }
    if StartsWith(code, CreditPrefix) {
      assert code[..2] == code[..4][..2];
    }
  }

  /** The insight messages are pairwise distinct. */
  lemma MessagesDistinct()
    ensures BalancedMsg != UnbalancedMsg && BalancedMsg != AdvanceMsg
    ensures BalancedMsg != InstrumentationMsg && BalancedMsg != PurchaseTaxMsg
    ensures UnbalancedMsg != AdvanceMsg && UnbalancedMsg != InstrumentationMsg
    ensures UnbalancedMsg != PurchaseTaxMsg && AdvanceMsg != InstrumentationMsg
    ensures AdvanceMsg != PurchaseTaxMsg && InstrumentationMsg != PurchaseTaxMsg
  {
  }

  /** 1 for a condition that holds, 0 otherwise. */
  function Flag(b: bool): nat {
    if b then 1 else 0
  }

  /** The place of a message in the insight list: the balance verdict first,
      then Advance, Instrumentation and purchase tax. */
  function Rank(msg: string): nat {
    if msg == AdvanceMsg then 1
    else if msg == InstrumentationMsg then 2
    else if msg == PurchaseTaxMsg then 3
    else 0
  }

  lemma MessageRanks()
    ensures Rank(BalancedMsg) == 0 && Rank(UnbalancedMsg) == 0
    ensures Rank(AdvanceMsg) == 1 && Rank(InstrumentationMsg) == 2 && Rank(PurchaseTaxMsg) == 3
  {
    MessagesDistinct();
  }

  /** Some stripped note mentions "Instrumentation". */
  predicate MentionsInstrumentation(parsed: seq<ParsedEntry>) {
    exists k :: 0 <= k < |parsed| && Contains(parsed[k].note, InstrumentationWord)
  }

  /** The insight list for a balance verdict, the text and the parsed
      entries: one message per condition that holds, in a fixed order and
      each at most once. */
  function Insights(balanceOk: bool, text: string, parsed: seq<ParsedEntry>): (ins: seq<string>)
    ensures |ins| == 1 + Flag(Contains(text, AdvanceWord)) + Flag(MentionsInstrumentation(parsed))
                       + Flag(Contains(text, PurchaseTaxWord) && Contains(text, ZeroAmountWord))
    ensures forall i, j :: 0 <= i < j < |ins| ==> Rank(ins[i]) < Rank(ins[j])
    ensures ins[0] == BalancedMsg <==> balanceOk
    ensures ins[0] == UnbalancedMsg <==> !balanceOk
    ensures BalancedMsg in ins <==> balanceOk
    ensures UnbalancedMsg in ins <==> !balanceOk
    ensures AdvanceMsg in ins <==> Contains(text, AdvanceWord)
    ensures InstrumentationMsg in ins <==> MentionsInstrumentation(parsed)
    ensures PurchaseTaxMsg in ins <==> Contains(text, PurchaseTaxWord) && Contains(text, ZeroAmountWord)
  {
    MessagesDistinct();
    MessageRanks();
    [if balanceOk then BalancedMsg else UnbalancedMsg]
    + (if Contains(text, AdvanceWord) then [AdvanceMsg] else [])
    + (if MentionsInstrumentation(parsed) then [InstrumentationMsg] else [])
    + (if Contains(text, PurchaseTaxWord) && Contains(text, ZeroAmountWord) then [PurchaseTaxMsg] else [])
  }

  /** Stripping a note does not change whether it mentions
      "Instrumentation". */
  lemma InstrumentationIgnoresStrip(note: string)
    ensures Contains(Strip(note), InstrumentationWord) <==> Contains(note, InstrumentationWord)
  {
    assert forall j :: 0 <= j < |InstrumentationWord| ==> 'A' <= InstrumentationWord[j] <= 'z';
    ContainsTrimmed(IsPySpace, note, InstrumentationWord);
  }

  /** One more entry adds its amount to every sum that selects it. */
  lemma SumWhereStep(es: seq<Entry>, i: nat, f: Filter)
    requires i < |es|
    ensures SumWhere(es[..i + 1], f)
            == SumWhere(es[..i], f) + (if Selects(f, es[i].code) then AmountOf(es[i].amountText) else 0.0)
  {
    assert es[..i + 1][..i] == es[..i];
  }

  lemma TotalsStep(es: seq<Entry>, i: nat)
    requires i < |es|
    ensures TotalsOf(es[..i + 1]) == AddTo(TotalsOf(es[..i]), es[i].code, AmountOf(es[i].amountText))
    ensures ParseAll(es[..i + 1]) == ParseAll(es[..i]) + [ParseEntry(es[i])]
  {
    assert es[..i + 1][..i] == es[..i];
  }

  /** What the totals are, collected from the lemmas about `TotalsOf`. */
  lemma TotalsFacts(es: seq<Entry>)
    ensures forall c :: Lookup(TotalsOf(es), c) == SumWhere(es, CodeIs(c))
    ensures SumValues(TotalsOf(es)) == SumWhere(es, AnyCode)
    ensures DistinctKeys(TotalsOf(es))
    ensures forall c :: c in Keys(TotalsOf(es)) <==> HasCode(es, c)
  {
    forall c ensures Lookup(TotalsOf(es), c) == SumWhere(es, CodeIs(c)) {
      TotalsLookup(es, c);
    }
    TotalsSum(es);
    TotalsKeys(es);
  }

  /** The Instrumentation insight looks at stripped notes, which mention the
      word exactly when the raw notes do. */
  lemma ParsedNotesMention(es: seq<Entry>)
    ensures MentionsInstrumentation(ParseAll(es))
            <==> (exists k :: 0 <= k < |es| && Contains(es[k].note, InstrumentationWord))
  {
    forall k | 0 <= k < |es|
      ensures Contains(ParseAll(es)[k].note, InstrumentationWord) <==> Contains(es[k].note, InstrumentationWord)
    {
      ParseAllAt(es, k);
      InstrumentationIgnoresStrip(es[k].note);
    }
  }

  /** The loop over the entries: the parsed records, `account_totals`, and
      the debit and credit sums, each matching its reference definition. */
  method Aggregate(es: seq<Entry>) returns (parsed: seq<ParsedEntry>, totals: Totals, debit: real, credit: real)
    ensures parsed == ParseAll(es)
    ensures totals == TotalsOf(es)
    ensures debit == SumWhere(es, CodePrefix(DebitPrefix))
    ensures credit == SumWhere(es, CodePrefix(CreditPrefix))
  {
    parsed, totals, debit, credit := [], [], 0.0, 0.0;
    var i := 0;
    while i < |es|
      invariant 0 <= i <= |es|
      invariant parsed == ParseAll(es[..i])
      invariant totals == TotalsOf(es[..i])
      invariant debit == SumWhere(es[..i], CodePrefix(DebitPrefix))
      invariant credit == SumWhere(es[..i], CodePrefix(CreditPrefix))
    {
      var e := es[i];
      var amount := AmountOf(e.amountText);
      parsed := parsed + [ParseEntry(e)];
      totals := AddTo(totals, e.code, amount);
      PrefixesNest(e.code);
      if StartsWith(e.code, ClearingPrefix) {
        if StartsWith(e.code, DebitPrefix) {
          debit := debit + amount;
        } else if StartsWith(e.code, CreditPrefix) {
          credit := credit + amount;
        }
      }
      TotalsStep(es, i);
      SumWhereStep(es, i, CodePrefix(DebitPrefix));
      SumWhereStep(es, i, CodePrefix(CreditPrefix));
      i := i + 1;
    }
    assert es[..i] == es;
  }

  /** `summarize_advanced` after the pattern matching: `text` is the whole
      OCR text, `header` the header groups and `es` the entry tuples in text
      order. */
  method Summarize(text: string, header: HeaderMatches, es: seq<Entry>) returns (s: Summary)
    ensures s.header == HeaderOf(header)
    ensures s.entries == ParseAll(es)
    ensures forall c :: Lookup(s.totals, c) == SumWhere(es, CodeIs(c))
    ensures SumValues(s.totals) == SumWhere(es, AnyCode)
    ensures DistinctKeys(s.totals)
    ensures forall c :: c in Keys(s.totals) <==> HasCode(es, c)
    ensures s.debit == SumWhere(es, CodePrefix(DebitPrefix))
    ensures s.credit == SumWhere(es, CodePrefix(CreditPrefix))
    ensures s.balanceOk <==> s.debit == s.credit
    ensures s.insights == Insights(s.balanceOk, text, s.entries)
    ensures |s.insights| >= 1 && s.insights[0] == (if s.balanceOk then BalancedMsg else UnbalancedMsg)
    ensures AdvanceMsg in s.insights <==> Contains(text, AdvanceWord)
    ensures InstrumentationMsg in s.insights <==>
              exists k :: 0 <= k < |es| && Contains(es[k].note, InstrumentationWord)
    ensures PurchaseTaxMsg in s.insights <==> Contains(text, PurchaseTaxWord) && Contains(text, ZeroAmountWord)
  {
    var parsed, totals, debit, credit := Aggregate(es);
    TotalsFacts(es);
    ParsedNotesMention(es);
    var balanceOk := debit == credit;
    var insights := Insights(balanceOk, text, parsed);
    s := Summary(HeaderOf(header), parsed, totals, debit, credit, balanceOk, insights);
  }
}
