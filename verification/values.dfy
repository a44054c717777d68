/** Values that cross the server boundary: optional values, decoded JSON
    documents, and the login/server credentials a client supplies. */
module Values {

  /** Python's None-or-value. */
  datatype Option<+T> = None | Some(value: T)

  /** A JSON document as `json.loads` decodes it and `json.dumps` encodes it.
      Objects keep their key order (insertion order of a Python dict). Numbers
      are modelled as integers. */
  datatype Json =
    | JNull
    | JBool(b: bool)
    | JInt(i: int)
    | JStr(s: string)
    | JList(items: seq<Json>)
    | JObj(fields: seq<(string, Json)>)

  /** Python truthiness of a decoded JSON value (`if login or server:`). */
  predicate Truthy(j: Json) {
    match j
    case JNull => false
    case JBool(b) => b
    case JInt(i) => i != 0
    case JStr(s) => s != ""
    case JList(xs) => xs != []
    case JObj(fs) => fs != []
  }

  /** `key in d` for a decoded JSON object. */
  predicate HasKey(fields: seq<(string, Json)>, key: string) {
    exists i | 0 <= i < |fields| :: fields[i].0 == key
  }

  /** Position of the last binding of `key`, or -1 when there is none. */
  function LastIndex(fields: seq<(string, Json)>, key: string): (k: int)
    ensures -1 <= k < |fields|
    ensures k >= 0 ==> fields[k].0 == key
    ensures forall j | k < j < |fields| :: fields[j].0 != key
    decreases |fields|
  {
    if fields == [] then -1
    else if fields[|fields| - 1].0 == key then |fields| - 1
    else LastIndex(fields[..|fields| - 1], key)
  }

  /** `d.get(key)`: the value bound to `key`, the last binding winning as in
      `json.loads` when a key is repeated. */
  function Get(fields: seq<(string, Json)>, key: string): (r: Option<Json>)
    ensures r.Some? <==> HasKey(fields, key)
    ensures r.Some? ==> exists i | 0 <= i < |fields| ::
                          fields[i] == (key, r.value) && forall j | i < j < |fields| :: fields[j].0 != key
  {
    var k := LastIndex(fields, key);
    if k < 0 then None else Some(fields[k].1)
  }

  /** `d.get(key, default)`. */
  function GetOr(fields: seq<(string, Json)>, key: string, default: Json): Json {
    match Get(fields, key)
    case Some(v) => v
    case None => default
  }

  /** A login or server value as the client sent it: a JSON integer, string
      or boolean. */
  datatype Scalar = SInt(i: int) | SStr(s: string) | SBool(b: bool)

  /** The credential read by `b.get("login")`: None for a missing key or a
      JSON null, the scalar otherwise, and no value at all for a list or an
      object. */
  function Credential(j: Json): Option<Option<Scalar>> {
    match j
    case JNull => Some(None)
    case JInt(i) => Some(Some(SInt(i)))
    case JStr(s) => Some(Some(SStr(s)))
    case JBool(b) => Some(Some(SBool(b)))
    case _ => None
  }

  /** The JSON value a credential came from. */
  function CredentialJson(c: Option<Scalar>): Json {
    match c
    case None => JNull
    case Some(SInt(i)) => JInt(i)
    case Some(SStr(s)) => JStr(s)
    case Some(SBool(b)) => JBool(b)
  }

  lemma CredentialRoundTrip(c: Option<Scalar>)
    ensures Credential(CredentialJson(c)) == Some(c)
  {
  }

  /** Python truthiness of an optional credential. */
  predicate Present(c: Option<Scalar>) {
    c.Some? && Truthy(CredentialJson(c))
  }

  /** One decimal digit. */
  function DigitChar(d: nat): (c: char)
    requires d < 10
    ensures '0' <= c <= '9'
  {
    (('0' as int) + d) as char
  }

  /** The decimal digits of `n`, most significant first. */
  function Digits(n: nat): (s: string)
    ensures |s| >= 1
    ensures forall i | 0 <= i < |s| :: '0' <= s[i] <= '9'
    ensures n < 10 <==> |s| == 1
    decreases n
  {
    if n < 10 then [DigitChar(n)] else Digits(n / 10) + [DigitChar(n % 10)]
  }

  /** Python's `str(n)` for an integer. */
  function Decimal(i: int): (s: string)
    ensures |s| >= 1
    ensures forall k | 0 <= k < |s| :: s[k] == '-' || '0' <= s[k] <= '9'
    ensures forall k | 1 <= k < |s| :: '0' <= s[k] <= '9'
    ensures (i < 0) <==> s[0] == '-'
  {
    if i < 0 then "-" + Digits(-i) else Digits(i)
  }

  /** `int(s)` for a string of decimal digits. */
  function DigitsValue(s: string): int
    decreases |s|
  {
    if s == [] then 0 else DigitsValue(s[..|s| - 1]) * 10 + (s[|s| - 1] as int - '0' as int)
  }

  /** `int(s)` for what `str` gives for an integer. */
  function DecimalValue(s: string): int {
    if s != [] && s[0] == '-' then -DigitsValue(s[1..]) else DigitsValue(s)
  }

  /** The digits read back as the number, with no leading zero. */
  lemma {:induction false} DigitsRoundTrip(n: nat)
    ensures DigitsValue(Digits(n)) == n
    ensures |Digits(n)| > 1 ==> Digits(n)[0] != '0'
    decreases n
  {
    if n >= 10 {
      DigitsRoundTrip(n / 10);
      var s := Digits(n);
      assert s[..|s| - 1] == Digits(n / 10);
      assert s[0] == Digits(n / 10)[0];
    }
  }

  /** `int(str(i)) == i`: the rendered login is the login. */
  lemma DecimalRoundTrip(i: int)
    ensures DecimalValue(Decimal(i)) == i
  {
    DigitsRoundTrip(if i < 0 then -i else i);
    if i < 0 {
      assert Decimal(i)[1..] == Digits(-i);
    }
  }

  /** The text an f-string gives for a credential (`f"Login={login}"`). */
  function Render(v: Scalar): string {
    match v
    case SInt(i) => Decimal(i)
    case SStr(s) => s
    case SBool(b) => if b then "True" else "False"
  }

  /** The Python type name of a decoded JSON value, as error messages print it. */
  function TypeName(j: Json): string {
    match j
    case JNull => "NoneType"
    case JBool(_) => "bool"
    case JInt(_) => "int"
    case JStr(_) => "str"
    case JList(_) => "list"
    case JObj(_) => "dict"
  }

  /** The exceptions the handlers can raise, by kind. */
  datatype PyError =
    | KeyMissing(key: string)                    // KeyError
    | NoAttribute(typeName: string, attr: string) // AttributeError
    | NotSubscriptable(typeName: string)         // TypeError on `x["k"]`
    | StrIndex(typeName: string)                 // TypeError on `list["k"]` / `str["k"]`
    | NotIterable(typeName: string)              // TypeError on `list(x)`
    | NotContainer(typeName: string)             // TypeError on `"k" in x`
    | BadIsoDate(text: string)                   // ValueError from `datetime.fromisoformat`
    | DateOutOfRange(message: string)            // ValueError from the date's range check
    | BadTimestamp(typeName: string)             // TypeError from `datetime.utcfromtimestamp`

  /** One hexadecimal digit, in lower case as `repr` writes it. */
  function HexDigit(d: nat): (c: char)
    requires d < 16
    ensures '0' <= c <= '9' || 'a' <= c <= 'f'
  {
    if d < 10 then DigitChar(d) else (('a' as int) + d - 10) as char
  }

  predicate IsHex(c: char) {
    '0' <= c <= '9' || 'a' <= c <= 'f'
  }

  /** The value of a lower-case hexadecimal digit. */
  function HexValue(c: char): (d: nat)
    requires IsHex(c)
    ensures d < 16
  {
    if c <= '9' then c as int - '0' as int else c as int - 'a' as int + 10
  }

  /** The quote `repr` puts around a string: a double quote when the text
      holds a single quote and no double quote, a single quote otherwise. */
  function Quote(s: string): (q: char)
    ensures q == '\'' || q == '"'
  {
    if '\'' in s && '"' !in s then '"' else '\''
  }

  /** How `repr` writes one character between quotes `q`: the quote and the
      backslash behind a backslash; tab, newline and carriage return by their
      letter; the other ASCII control characters and DEL as `\xhh`; any other
      character as itself. */
  function EscapeChar(c: char, q: char): (e: string)
    ensures |e| >= 1 && (|e| == 1 <==> e == [c])
  {
    if c == q || c == '\\' then ['\\', c]
    else if c == '\t' then ['\\', 't']
    else if c == '\n' then ['\\', 'n']
    else if c == '\r' then ['\\', 'r']
    else if c < ' ' || c == '\U{7F}' then ['\\', 'x', HexDigit(c as int / 16), HexDigit(c as int % 16)]
    else [c]
  }

  function Escape(s: string, q: char): string
    decreases |s|
  {
    if s == [] then [] else EscapeChar(s[0], q) + Escape(s[1..], q)
  }

  /** Python's `repr` of a string. */
  function Repr(s: string): (r: string)
    ensures |r| >= 2 && r[0] == r[|r| - 1] == Quote(s)
  {
    [Quote(s)] + Escape(s, Quote(s)) + [Quote(s)]
  }

  function Prepend(c: char, r: Option<string>): Option<string> {
    match r
    case None => None
    case Some(t) => Some([c] + t)
  }

  /** Reading back the escapes of a quoted string literal's body. */
  function Unescape(t: string): Option<string>
    decreases |t|
  {
    if t == [] then Some([])
    else if t[0] != '\\' then Prepend(t[0], Unescape(t[1..]))
    else if |t| < 2 then None
    else if t[1] == '\\' || t[1] == '\'' || t[1] == '"' then Prepend(t[1], Unescape(t[2..]))
    else if t[1] == 't' then Prepend('\t', Unescape(t[2..]))
    else if t[1] == 'n' then Prepend('\n', Unescape(t[2..]))
    else if t[1] == 'r' then Prepend('\r', Unescape(t[2..]))
    else if t[1] == 'x' && |t| >= 4 && IsHex(t[2]) && IsHex(t[3]) then
      Prepend((HexValue(t[2]) * 16 + HexValue(t[3])) as char, Unescape(t[4..]))
    else None
  }

  /** `ast.literal_eval` of a quoted string literal without prefixes. */
  function Unrepr(r: string): Option<string> {
    if |r| >= 2 && (r[0] == '\'' || r[0] == '"') && r[|r| - 1] == r[0] then Unescape(r[1..|r| - 1])
    else None
  }

  /** One escaped character reads back as itself. */
  lemma EscapeCharBack(c: char, q: char, rest: string)
    requires q == '\'' || q == '"'
    ensures Unescape(EscapeChar(c, q) + rest) == Prepend(c, Unescape(rest))
  {
    var e := EscapeChar(c, q);
    var t := e + rest;
    if |e| == 1 {
      assert t[0] == c && t[1..] == rest;
    } else if |e| == 2 {
      assert t[2..] == rest;
    } else {
      HexEscapeBack(c, rest);
    }
  }

  /** A `\xhh` escape reads back as its character. */
  lemma HexEscapeBack(c: char, rest: string)
    requires c as int < 128
    ensures Unescape(['\\', 'x', HexDigit(c as int / 16), HexDigit(c as int % 16)] + rest) == Prepend(c, Unescape(rest))
  {
    var hi, lo := c as int / 16, c as int % 16;
    var t := ['\\', 'x', HexDigit(hi), HexDigit(lo)] + rest;
    assert t[4..] == rest;
    assert HexValue(HexDigit(hi)) == hi && HexValue(HexDigit(lo)) == lo;
    assert (hi * 16 + lo) as char == c;
  }

  /** `repr` of a string reads back as that string: no two strings share a
      `repr`, and the text between the quotes loses nothing. */
  lemma {:induction false} EscapeBack(s: string, q: char)
    requires q == '\'' || q == '"'
    ensures Unescape(Escape(s, q)) == Some(s)
    decreases |s|
  {
    if s != [] {
      EscapeBack(s[1..], q);
      EscapeCharBack(s[0], q, Escape(s[1..], q));
      assert [s[0]] + s[1..] == s;
    }
  }

  lemma ReprRoundTrip(s: string)
    ensures Unrepr(Repr(s)) == Some(s)
  {
    var r := Repr(s);
    assert r[1..|r| - 1] == Escape(s, Quote(s));
    EscapeBack(s, Quote(s));
  }

  /** Printable ASCII other than the quote `q` and the backslash. */
  predicate PrintableFor(s: string, q: char) {
    forall i | 0 <= i < |s| :: ' ' <= s[i] <= '~' && s[i] != q && s[i] != '\\'
  }

  /** Printable ASCII other than the single quote and the backslash. */
  predicate PlainText(s: string) {
    PrintableFor(s, '\'')
  }

  /** Such text is its own escape between quotes `q`. */
  lemma {:induction false} EscapePlain(s: string, q: char)
    requires PrintableFor(s, q)
    ensures Escape(s, q) == s
    decreases |s|
  {
    if s != [] {
      assert PrintableFor(s[1..], q) by {
        forall i | 0 <= i < |s[1..]| ensures ' ' <= s[1..][i] <= '~' && s[1..][i] != q && s[1..][i] != '\\' {
          assert s[1..][i] == s[i + 1];
        }
      }
      EscapePlain(s[1..], q);
      assert [s[0]] + s[1..] == s;
    }
  }

  /** Plain text is quoted with single quotes and written as is; a key such
      as `symbol` reads `'symbol'` in a `KeyError`. */
  lemma ReprPlain(s: string)
    requires PlainText(s)
    ensures Repr(s) == "'" + s + "'"
  {
    assert '\'' !in s;
    EscapePlain(s, '\'');
  }

  /** Printable text holding a single quote and no double quote is quoted
      with double quotes and written as is: `it's` reads `"it's"`. */
  lemma ReprApostrophe(s: string)
    requires '\'' in s && PrintableFor(s, '"')
    ensures Repr(s) == "\"" + s + "\""
  {
    assert '"' !in s;
    EscapePlain(s, '"');
  }

  /** `str(e)`: the text an exception carries into an error reply. A
      `KeyError` and `fromisoformat` show their text through `repr`. */
  function ErrorText(e: PyError): string {
    match e
    case KeyMissing(k) => Repr(k)
    case NoAttribute(t, a) => "'" + t + "' object has no attribute '" + a + "'"
    case NotSubscriptable(t) => "'" + t + "' object is not subscriptable"
    case StrIndex(t) =>
      if t == "str" then "string indices must be integers"
      else t + " indices must be integers or slices, not str"
    case NotIterable(t) => "'" + t + "' object is not iterable"
    case NotContainer(t) => "argument of type '" + t + "' is not iterable"
    case BadIsoDate(s) => "Invalid isoformat string: " + Repr(s)
    case DateOutOfRange(m) => m
    case BadTimestamp(t) => "an integer is required (got type " + t + ")"
  }

  /** `d[key]` on a decoded request body. */
  function Index(b: Json, key: string): (r: Either<PyError, Json>)
    ensures r.Right? <==> b.JObj? && HasKey(b.fields, key)
    ensures r.Right? ==> Get(b.fields, key) == Some(r.right)
    ensures b.JObj? && !HasKey(b.fields, key) ==> r == Left(KeyMissing(key))
    ensures b.JList? ==> r == Left(StrIndex("list"))
    ensures b.JStr? ==> r == Left(StrIndex("str"))
    ensures !b.JObj? && !b.JList? && !b.JStr? ==> r == Left(NotSubscriptable(TypeName(b)))
  {
    match b
    case JObj(fs) => (match Get(fs, key) case Some(v) => Right(v) case None => Left(KeyMissing(key)))
    case JList(_) => Left(StrIndex("list"))
    case JStr(_) => Left(StrIndex("str"))
    case _ => Left(NotSubscriptable(TypeName(b)))
  }

  /** `d.get(key, default)` on a decoded request body: only a dictionary has `get`. */
  function BodyGet(b: Json, key: string, default: Json): (r: Either<PyError, Json>)
    ensures r.Right? <==> b.JObj?
    ensures r.Right? && HasKey(b.fields, key) ==> Get(b.fields, key) == Some(r.right)
    ensures r.Right? && !HasKey(b.fields, key) ==> r.right == default
    ensures r.Left? ==> r == Left(NoAttribute(TypeName(b), "get"))
  {
    match b
    case JObj(fs) => Right(GetOr(fs, key, default))
    case _ => Left(NoAttribute(TypeName(b), "get"))
  }

  /** A value or the exception raised while computing it. */
  datatype Either<+L, +R> = Left(left: L) | Right(right: R)
}
