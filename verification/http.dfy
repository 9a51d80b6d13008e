/** Requests, responses, and the conversions the handlers apply to posted text. */
module Http {
  import opened Wrappers

  datatype Method = Get | Post | Other(name: string)

  /** A request: its method and its posted fields. */
  datatype Request = Request(verb: Method, form: map<string, string>)

  /** What a handler answers. `Render` is a page, `RenderError` a page showing
      an error message, `BikeListing` the bike page with the bikes it lists,
      `Confirmed` the booking-confirmed page, `Json` a JSON reply with its HTTP
      status code, `NotFound` a 404 and `ServerError` an uncaught exception. */
  datatype Response =
    | Redirect(target: string)
    | Render(template: string)
    | RenderError(template: string)
    | BikeListing(template: string, bikes: set<nat>)
    | Confirmed
    | Json(success: bool, code: nat)
    | NotFound
    | ServerError

  /** A posted field, or None when it was not posted. */
  function Field(req: Request, name: string): (v: Option<string>)
    ensures v.Some? <==> name in req.form
    ensures v.Some? ==> req.form[name] == v.value
  {
    if name in req.form then Some(req.form[name]) else None
  }

  /** Python truthiness of an optional string: present and non-empty. */
  predicate Truthy(v: Option<string>) {
    v.Some? && v.value != ""
  }

  /** Python's `str` of an optional string inside an f-string. */
  function Display(v: Option<string>): string {
    match v
    case Some(s) => s
    case None => "None"
  }

  predicate IsDigit(c: char) {
    '0' <= c <= '9'
  }

  predicate AllDigits(s: string) {
    forall i :: 0 <= i < |s| ==> IsDigit(s[i])
  }

  function DigitValue(c: char): nat
    requires IsDigit(c)
  {
    c as int - '0' as int
  }

  function DigitChar(d: nat): (c: char)
    requires d < 10
    ensures IsDigit(c) && DigitValue(c) == d
  {
    ('0' as int + d) as char
  }

  /** The number a string of decimal digits denotes. */
  function DigitsValue(s: string): nat
    requires AllDigits(s)
  {
    if |s| == 0 then 0 else DigitsValue(s[..|s| - 1]) * 10 + DigitValue(s[|s| - 1])
  }

  /** A primary key given as text: a non-empty string of decimal digits. */
  function ParsePk(s: string): (r: Option<nat>)
    ensures r.Some? <==> |s| > 0 && AllDigits(s)
  {
    if |s| > 0 && AllDigits(s) then Some(DigitsValue(s)) else None
  }

  /** The decimal text of a primary key, as a page renders it into a form. */
  function ShowNat(n: nat): (s: string)
    ensures |s| > 0 && AllDigits(s)
    ensures |s| > 1 ==> s[0] != '0'
  {
    if n < 10 then [DigitChar(n)] else ShowNat(n / 10) + [DigitChar(n % 10)]
  }

  /** A key rendered as text parses back to the same key. */
  lemma {:induction false} ParseShow(n: nat)
    ensures ParsePk(ShowNat(n)) == Some(n)
  {
    var s := ShowNat(n);
    if n < 10 {
      assert s[..|s| - 1] == [];
    } else {
      ParseShow(n / 10);
      assert s[..|s| - 1] == ShowNat(n / 10);
      assert s[|s| - 1] == DigitChar(n % 10);
      assert DigitsValue(s) == (n / 10) * 10 + n % 10;
    }
  }

  /** A canonical decimal text (no leading zero) is the rendering of the key it parses to. */
  lemma {:induction false} ShowParse(s: string)
    requires |s| > 0 && AllDigits(s)
    requires |s| > 1 ==> s[0] != '0'
    ensures ShowNat(DigitsValue(s)) == s
    decreases |s|
  {
    if |s| > 1 {
      var init := s[..|s| - 1];
      assert init[0] == s[0];
      ShowParse(init);
      var n := DigitsValue(s);
      LeadingDigitNonZero(init);
      assert n / 10 == DigitsValue(init);
      assert n % 10 == DigitValue(s[|s| - 1]);
    }
  }

  /** A digit string without a leading zero denotes a positive number. */
  lemma {:induction false} LeadingDigitNonZero(s: string)
    requires |s| > 0 && AllDigits(s) && s[0] != '0'
    ensures DigitsValue(s) >= 1
    decreases |s|
  {
    if |s| > 1 {
      LeadingDigitNonZero(s[..|s| - 1]);
    }
  }
}
