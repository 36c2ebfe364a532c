/** Python values as the relay handles them: the dictionaries it stores, the JSON bodies bots
    send back, and the small pieces of Python's str machinery (truthiness, repr, str, int,
    whitespace) that its messages and parsers depend on. */
module Values {

  datatype Option<+T> = None | Some(value: T)

  /** The exceptions the modelled code lets escape. */
  datatype PyError =
    | IntegrityError      // sqlite3.IntegrityError: duplicate or non-integer primary key
    | OperationalError    // sqlite3.OperationalError: SQL text that SQLite cannot compile
    | KeyError            // a missing dictionary key or set element
    | JsonDecodeError     // json.loads / reply.json() on text that is not JSON
    | UnboundLocalError   // trigger_bot returning a reply it never assigned
    | RequestError        // an exception of requests.post other than a timeout
    | TypeError           // an ordering comparison between a non-number and an int
    | AttributeError      // reading an instance attribute that was never assigned

  datatype Result<+T> = Ok(value: T) | Raised(error: PyError)

  /** A Python value. `JsonText(doc)` is the str that `json.dumps(doc)` returns: it is a str
      like any other, but its characters are not modelled, only the document it encodes. */
  datatype Value =
    | PyNone
    | Bool(b: bool)
    | Int(i: int)
    | Str(s: string)
    | List(items: seq<Value>)
    | Dict(entries: map<string, Value>)
    | JsonText(doc: Value)

  /** A dictionary with string keys: a stored row, a keyword-argument set, a built message. */
  type Row = map<string, Value>

  /** A value pypika writes into SQL text as a literal SQLite accepts: None, a bool, an int or
      a str. It writes a list as `[...]`, which SQLite reads as a quoted column name, and a
      dict as its Python `str`, which is not SQL. */
  predicate Literal(v: Value) {
    !v.List? && !v.Dict?
  }

  /** The time stamp a store writes as `when`: `time.time()` in necsus/db.py, the `strftime`
      text in db.py. Neither is a list or a dict. */
  type Stamp = v: Value | Literal(v) witness PyNone

  /** Python's truth value of `v`. */
  predicate Truthy(v: Value) {
    match v
    case PyNone => false
    case Bool(b) => b
    case Int(i) => i != 0
    case Str(s) => s != ""
    case List(xs) => xs != []
    case Dict(m) => m != map[]
    case JsonText(_) => true   // json.dumps never returns the empty string
  }

  /** `isinstance(v, str)`. */
  predicate IsStr(v: Value) {
    v.Str? || v.JsonText?
  }

  /** `d.get(k, default)`. */
  function Get(d: Row, k: string, default: Value): (r: Value)
    ensures k in d ==> r == d[k]
    ensures k !in d ==> r == default
  {
    if k in d then d[k] else default
  }

  /** A stored row, or None, as the Python value a query hands back. */
  function OptionValue(r: Option<Row>): (v: Value)
    ensures r.None? <==> v == PyNone
    ensures r.Some? ==> v == Dict(r.value)
  {
    match r
    case None => PyNone
    case Some(row) => Dict(row)
  }

  // ---------------------------------------------------------------------------------
  // Decimal text of integers, as str() and f-strings write them.

  function DigitChar(d: nat): (c: char)
    requires d < 10
    ensures '0' <= c <= '9' && c as int - '0' as int == d
  {
    (d + '0' as int) as char
  }

  function NatToString(n: nat): (s: string)
    ensures |s| > 0
    ensures forall k :: 0 <= k < |s| ==> '0' <= s[k] <= '9'
    decreases n
  {
    if n < 10 then [DigitChar(n)] else NatToString(n / 10) + [DigitChar(n % 10)]
  }

  function IntToString(i: int): (s: string)
    ensures |s| > 0
    ensures i < 0 <==> s[0] == '-'
  {
    if i < 0 then "-" + NatToString(-i) else NatToString(i)
  }

  // ---------------------------------------------------------------------------------
  // Whitespace as str.isspace, str.split, str.strip and int() see it.

  /** The characters for which Python's `str.isspace()` holds. */
  predicate IsSpace(c: char) {
    c == ' ' || ('\t' <= c <= '\r') || ('\U{1C}' <= c <= '\U{1F}') || c == '\U{85}'
    || c == '\U{A0}' || c == '\U{1680}' || ('\U{2000}' <= c <= '\U{200A}')
    || c == '\U{2028}' || c == '\U{2029}' || c == '\U{202F}' || c == '\U{205F}'
    || c == '\U{3000}'
  }

  predicate AllSpace(s: string) {
    forall k :: 0 <= k < |s| ==> IsSpace(s[k])
  }

  /** Stripping one more space from the end of `s` keeps `r` a prefix followed by spaces. */
  lemma RStripStep(s: string, r: string)
    requires s != [] && IsSpace(s[|s| - 1])
    requires |r| <= |s| - 1 && r == s[..|s| - 1][..|r|] && AllSpace(s[..|s| - 1][|r|..])
    ensures r == s[..|r|] && AllSpace(s[|r|..])
  {
    forall k | 0 <= k < |s| - |r| ensures IsSpace(s[|r|..][k]) {
      if k < |s| - 1 - |r| { assert s[|r|..][k] == s[..|s| - 1][|r|..][k]; }
    }
  }

  /** Stripping one more space from the front of `s` keeps `r` a suffix after spaces. */
  lemma LStripStep(s: string, r: string)
    requires s != [] && IsSpace(s[0])
    requires |r| <= |s| - 1 && r == s[1..][|s| - 1 - |r|..] && AllSpace(s[1..][..|s| - 1 - |r|])
    ensures r == s[|s| - |r|..] && AllSpace(s[..|s| - |r|])
  {
    var cut := |s| - |r|;
    assert s[1..][cut - 1..] == s[cut..];
    forall k | 0 <= k < cut ensures IsSpace(s[..cut][k]) {
      if k > 0 { assert s[..cut][k] == s[1..][..cut - 1][k - 1]; }
    }
  }

  /** `s.rstrip()`. */
  function RStrip(s: string): (r: string)
    ensures |r| <= |s| && r == s[..|r|]
    ensures AllSpace(s[|r|..])
    ensures r == [] || !IsSpace(r[|r| - 1])
  {
    if s != [] && IsSpace(s[|s| - 1]) then
      var r := RStrip(s[..|s| - 1]);
      RStripStep(s, r);
      r
    else s
  }

  /** `s.lstrip()`. */
  function LStrip(s: string): (r: string)
    ensures |r| <= |s| && r == s[|s| - |r|..]
    ensures AllSpace(s[..|s| - |r|])
    ensures r == [] || !IsSpace(r[0])
  {
    if s != [] && IsSpace(s[0]) then
      var r := LStrip(s[1..]);
      LStripStep(s, r);
      r
    else s
  }

  // ---------------------------------------------------------------------------------
  // int(s) for a str s: surrounding whitespace, an optional sign, and ASCII digits in groups
  // joined by single underscores.

  predicate IsDigit(c: char) { '0' <= c <= '9' }

  /** The digit strings int() accepts after its sign: digits, with single underscores
      allowed only between two digits. */
  predicate DigitRun(s: string) {
    |s| > 0 && IsDigit(s[0]) && IsDigit(s[|s| - 1])
    && (forall k :: 0 <= k < |s| ==> IsDigit(s[k]) || s[k] == '_')
    && (forall k :: 0 <= k < |s| - 1 && s[k] == '_' ==> s[k + 1] != '_')
  }

  function DigitValue(c: char): (d: nat)
    requires IsDigit(c)
    ensures d < 10
  {
    c as int - '0' as int
  }

  /** The number a digit run denotes, underscores ignored. */
  function DigitsValue(s: string): nat
    requires forall k :: 0 <= k < |s| ==> IsDigit(s[k]) || s[k] == '_'
  {
    if s == [] then 0
    else if s[|s| - 1] == '_' then DigitsValue(s[..|s| - 1])
    else DigitsValue(s[..|s| - 1]) * 10 + DigitValue(s[|s| - 1])
  }

  /** `int(s)`, or None where int() raises ValueError. */
  function ParseInt(s: string): (r: Option<int>)
  {
    var t := RStrip(LStrip(s));
    if |t| > 0 && (t[0] == '-' || t[0] == '+') then
      if DigitRun(t[1..]) then
        var n: int := DigitsValue(t[1..]);
        Some(if t[0] == '-' then -n else n)
      else None
    else if DigitRun(t) then Some(DigitsValue(t))
    else None
  }

  lemma {:induction false} DigitsValueOfNat(n: nat)
    ensures DigitRun(NatToString(n))
    ensures DigitsValue(NatToString(n)) == n
    decreases n
  {
    var s := NatToString(n);
    if n >= 10 {
      DigitsValueOfNat(n / 10);
      var p := NatToString(n / 10);
      assert s == p + [DigitChar(n % 10)];
      assert s[..|s| - 1] == p;
    }
  }

  lemma DigitNotSpace(c: char)
    requires IsDigit(c)
    ensures !IsSpace(c)
  {
  }

  lemma StripWithoutSpace(s: string)
    requires forall k :: 0 <= k < |s| ==> !IsSpace(s[k])
    ensures RStrip(LStrip(s)) == s
  {
  }

  lemma DigitRunNoSpace(s: string)
    requires DigitRun(s)
    ensures forall k :: 0 <= k < |s| ==> !IsSpace(s[k])
  {
    forall k | 0 <= k < |s| ensures !IsSpace(s[k]) {
      if s[k] != '_' { DigitNotSpace(s[k]); }
    }
  }

  /** int() of a digit run is its value. */
  lemma ParseIntDigits(s: string)
    requires DigitRun(s)
    ensures ParseInt(s) == Some(DigitsValue(s))
  {
    DigitRunNoSpace(s);
    StripWithoutSpace(s);
    assert RStrip(LStrip(s)) == s;
    assert s[0] != '-' && s[0] != '+';
  }

  /** int() of a minus sign and a digit run is the negated value. */
  lemma ParseIntMinusDigits(d: string)
    requires DigitRun(d)
    ensures ParseInt("-" + d) == Some(-(DigitsValue(d) as int))
  {
    var s := "-" + d;
    DigitRunNoSpace(d);
    forall k | 0 <= k < |s| ensures !IsSpace(s[k]) {
      if k > 0 { assert s[k] == d[k - 1]; }
    }
    StripWithoutSpace(s);
    assert s[0] == '-' && s[1..] == d;
  }

  /** int() reads back the decimal text str() writes. */
  lemma ParseIntOfIntToString(i: int)
    ensures ParseInt(IntToString(i)) == Some(i)
  {
    var s := IntToString(i);
    var n: nat := if i < 0 then -i else i;
    var d := NatToString(n);
    DigitsValueOfNat(n);
    if i < 0 {
      assert s == "-" + d;
      ParseIntMinusDigits(d);
    } else {
      assert s == d;
      ParseIntDigits(d);
    }
  }

  /** Distinct integers have distinct decimal texts. */
  lemma IntToStringInjective(i: int, j: int)
    requires IntToString(i) == IntToString(j)
    ensures i == j
  {
    ParseIntOfIntToString(i);
    ParseIntOfIntToString(j);
  }

  // ---------------------------------------------------------------------------------
  // repr() and str() of the values that reach message texts.

  function HexDigit(d: nat): char
    requires d < 16
  {
    "0123456789abcdef"[d]
  }

  /** One character of a str literal as repr writes it between quotes `q`. Within Latin-1 the
      characters `str.isprintable` rejects are the C0 and C1 controls, DEL, the no-break space
      and the soft hyphen; each is written as `\xhh`. */
  function EscapeChar(c: char, q: char): string {
    if c == '\\' then "\\\\"
    else if c == q then ['\\', q]
    else if c == '\n' then "\\n"
    else if c == '\r' then "\\r"
    else if c == '\t' then "\\t"
    else if c < ' ' || ('\U{7F}' <= c <= '\U{A0}') || c == '\U{AD}' then
      ['\\', 'x', HexDigit(c as int / 16), HexDigit(c as int % 16)]
    else [c]
  }

  function EscapeAll(s: string, q: char): string {
    if s == [] then [] else EscapeChar(s[0], q) + EscapeAll(s[1..], q)
  }

  /** `repr(s)` for a str: single quotes unless the text holds a single quote and no double
      quote. */
  function QuoteStr(s: string): (r: string)
    ensures |r| >= 2 && (r[0] == '\'' || r[0] == '"') && r[|r| - 1] == r[0]
  {
    var q := if '\'' in s && '"' !in s then '"' else '\'';
    [q] + EscapeAll(s, q) + [q]
  }

  /** `repr(v)`. Lists, dicts and JSON text render as a placeholder. */
  function Repr(v: Value): string {
    match v
    case PyNone => "None"
    case Bool(b) => if b then "True" else "False"
    case Int(i) => IntToString(i)
    case Str(s) => QuoteStr(s)
    case _ => "..."
  }

  /** `str(v)`, as an f-string without conversion writes it. */
  function PyStr(v: Value): string {
    match v
    case Str(s) => s
    case _ => Repr(v)
  }

  /** `needle` occurs somewhere in `hay`. */
  predicate Contains(hay: string, needle: string) {
    exists k :: 0 <= k <= |hay| - |needle| && OccursAt(hay, needle, k)
  }

  predicate OccursAt(hay: string, needle: string, k: int)
    requires 0 <= k <= |hay| - |needle|
  {
    hay[k..k + |needle|] == needle
  }

  lemma ContainsMiddle(a: string, b: string, c: string)
    ensures Contains(a + b + c, b)
  {
    var h := a + b + c;
    assert OccursAt(h, b, |a|);
  }
}
