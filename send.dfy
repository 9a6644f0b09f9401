/**
 * The invoice route (backend/routes/send.js): validates the request, takes the next
 * invoice number of the user's budget for the current year and has the PDF generated.
 *
 * The year, the PDF generator and the store are parameters or state; the user's
 * `budgetId` is taken as a string, the empty string standing for a missing one.
 */
module Send {
  import opened Base
  import opened Js

  const InvalidDataMessage: string := "Missing or invalid data."
  const NoBudgetMessage: string := "Kein Budget für diesen Nutzer hinterlegt."
  /** The invoice number's counter part has at least this many digits. */
  const CounterWidth: nat := 4

  /** A JSON reply: its HTTP status and its body object. */
  datatype HttpReply = HttpReply(status: nat, body: map<string, Json>)

  function ErrorReply(status: nat, message: string): HttpReply
  {
    HttpReply(status, map["error" := JStr(message)])
  }

  function SuccessReply(pdfPath: string, invoice: string): HttpReply
  {
    HttpReply(200, map["pdfPath" := JStr(pdfPath), "invoice" := JStr(invoice)])
  }

  /** The validation: images a non-empty array, texts an array of the same length, email truthy. */
  predicate ValidBody(images: Json, texts: Json, email: Json)
  {
    IsArray(images) && ArrayLength(images) > 0 && IsArray(texts) && ArrayLength(texts) == ArrayLength(images)
    && Truthy(email)
  }

  /** The counter's key: `<budgetId>-<year>`. */
  function CounterKey(budgetId: string, year: nat): string
  {
    budgetId + "-" + NatToString(year)
  }

  /** The number drawn for `key`: one more than the stored number, or 1 when none is stored. */
  function NextCount(counters: map<string, Json>, key: string): (n: int)
    ensures key in counters && counters[key].JNum? ==> n == counters[key].n + 1
    ensures !(key in counters && counters[key].JNum?) ==> n == 1
  {
    if key in counters && counters[key].JNum? then counters[key].n + 1 else 1
  }

  /** The counters after drawing a number for `key`. */
  function Bump(counters: map<string, Json>, key: string): (c: map<string, Json>)
    ensures c.Keys == counters.Keys + {key}
    ensures c[key] == JNum(NextCount(counters, key))
    ensures forall k :: k in counters && k != key ==> c[k] == counters[k]
  {
    counters[key := JNum(NextCount(counters, key))]
  }

  /** The counters after `n` numbers drawn for `key`. */
  function BumpTimes(counters: map<string, Json>, key: string, n: nat): map<string, Json>
  {
    if n == 0 then counters else Bump(BumpTimes(counters, key, n - 1), key)
  }

  /**
   * The numbers drawn for one key run on by one: after `n` draws starting from no number
   * the counter holds `n`, so the draws gave 1, 2, ..., n; other keys are untouched.
   */
  lemma {:induction false} DrawsCountUp(counters: map<string, Json>, key: string, n: nat)
    requires !(key in counters && counters[key].JNum?)
    ensures n > 0 ==> key in BumpTimes(counters, key, n) && BumpTimes(counters, key, n)[key] == JNum(n)
    ensures NextCount(BumpTimes(counters, key, n), key) == n + 1
    ensures forall k :: k in counters && k != key ==> k in BumpTimes(counters, key, n)
                                                      && BumpTimes(counters, key, n)[k] == counters[k]
  {
    if n > 0 {
      DrawsCountUp(counters, key, n - 1);
    }
  }

  /** `String(next).padStart(4, '0')`: the counter part of the invoice number. */
  function CounterSuffix(next: int): string
  {
    PadStart(IntToString(next), CounterWidth, '0')
  }

  /** `<year>-<counter padded to 4 digits>`. */
  function InvoiceNumber(year: nat, next: int): string
  {
    NatToString(year) + "-" + CounterSuffix(next)
  }

  /**
   * The counter part of a drawn number: at least four characters, exactly four below
   * 10000, never cut (it ends with the number's own digits) and reading it back gives the
   * number.
   */
  lemma CounterSuffixSpec(next: nat)
    ensures var s := CounterSuffix(next);
            |s| >= CounterWidth && AllDigits(s) && ParseDecimal(s) == next
            && s[|s| - |NatToString(next)|..] == NatToString(next)
            && (next < 10000 ==> |s| == CounterWidth)
  {
    var d := NatToString(next);
    var s := CounterSuffix(next);
    if next < 10000 {
      assert Pow10(4) == 10000;
      NatToStringDigits(next, 4);
    }
    if |d| < CounterWidth {
      var z := seq(CounterWidth - |d|, _ => '0');
      assert s == z + d;
      ParseLeadingZeros(z, d);
    } else {
      assert s == d;
    }
    ParseNatToString(next);
  }

  /** Distinct drawn numbers of one year give distinct invoice numbers. */
  lemma InvoiceNumbersDistinct(year: nat, m: nat, n: nat)
    requires m != n
    ensures InvoiceNumber(year, m) != InvoiceNumber(year, n)
  {
    CounterSuffixSpec(m);
    CounterSuffixSpec(n);
    var y := NatToString(year) + "-";
    assert InvoiceNumber(year, m)[|y|..] == CounterSuffix(m);
    assert InvoiceNumber(year, n)[|y|..] == CounterSuffix(n);
  }

  /** The invoice counters of the store (`db.data.invoiceCounters`; missing is empty). */
  class InvoiceStore {
    var invoiceCounters: map<string, Json>

    constructor (counters: map<string, Json>)
      ensures invoiceCounters == counters
    {
      invoiceCounters := counters;
    }

    /**
     * `POST /api/send`. `year` is the current year and `generatePdf` the PDF generator
     * given the invoice number (a path, or the message of its error). A number is drawn
     * and stored before the PDF is generated, so it is used up even when that fails.
     */
    method HandleSend(images: Json, texts: Json, email: Json, budgetId: string, year: nat,
                      generatePdf: string -> Result<string, string>)
      returns (reply: HttpReply)
      modifies this
      ensures !ValidBody(images, texts, email) ==>
                reply == ErrorReply(400, InvalidDataMessage) && invoiceCounters == old(invoiceCounters)
      ensures ValidBody(images, texts, email) && budgetId == "" ==>
                reply == ErrorReply(400, NoBudgetMessage) && invoiceCounters == old(invoiceCounters)
      ensures ValidBody(images, texts, email) && budgetId != "" ==>
                var key := CounterKey(budgetId, year);
                var number := InvoiceNumber(year, NextCount(old(invoiceCounters), key));
                invoiceCounters == Bump(old(invoiceCounters), key)
                && (generatePdf(number).Ok? ==>
                      reply == SuccessReply(generatePdf(number).value, number))
                && (generatePdf(number).Err? ==> reply == ErrorReply(500, generatePdf(number).error))
    {
      if !ValidBody(images, texts, email) {
        return ErrorReply(400, InvalidDataMessage);
      }
      if budgetId == "" {
        return ErrorReply(400, NoBudgetMessage);
      }
      var key := CounterKey(budgetId, year);
      var next := NextCount(invoiceCounters, key);
      invoiceCounters := invoiceCounters[key := JNum(next)];
      var invoiceNumber := InvoiceNumber(year, next);
      var pdf := generatePdf(invoiceNumber);
      if pdf.Err? {
        return ErrorReply(500, pdf.error);
      }
      reply := SuccessReply(pdf.value, invoiceNumber);
    }
  }
}
