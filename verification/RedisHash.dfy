/** Storing a struct as a Redis hash and loading it back.

    Every field becomes text under its name. Null pointers become the empty text and the
    soft-delete field is left out, so those are where information can be lost; the exact
    condition for a lossless round trip is proved. */
module RedisHash {
  import opened Numbers
  import opened Options

  datatype Name = Name(text: string)

  datatype Scalar = Text(s: string) | Int(i: Int64) | Bool(b: bool)

  datatype Kind = TextKind | IntKind | BoolKind

  /** `Deleted` is a gorm.DeletedAt, with the time when it is set. */
  datatype Value = Plain(v: Scalar) | Pointer(kind: Kind, target: Option<Scalar>) | Deleted(at: Option<int>)

  datatype Field = Field(name: Name, value: Value)

  function KindOf(v: Scalar): Kind {
    match v
    case Text(_) => TextKind
    case Int(_) => IntKind
    case Bool(_) => BoolKind
  }

  predicate WellTyped(v: Value) {
    v.Pointer? && v.target.Some? ==> KindOf(v.target.value) == v.kind
  }

  // ----- numbers as text -----

  function Digit(d: int): char
    requires 0 <= d < 10
  {
    ['0', '1', '2', '3', '4', '5', '6', '7', '8', '9'][d]
  }

  function DigitValue(c: char): Option<int> {
    if '0' <= c <= '9' then Some(c as int - '0' as int) else None
  }

  function Digits(n: nat): (r: string)
    ensures r != ""
  {
    if n < 10 then [Digit(n)] else Digits(n / 10) + [Digit(n % 10)]
  }

  function FormatInt(i: int): string {
    if i < 0 then "-" + Digits(-i) else Digits(i)
  }

  function ParseDigits(s: string): Option<nat> {
    if s == "" then None
    else
      var last := DigitValue(s[|s| - 1]);
      if last.None? then None
      else if |s| == 1 then Some(last.value)
      else
        var rest := ParseDigits(s[..|s| - 1]);
        if rest.None? then None else Some(rest.value * 10 + last.value)
  }

  /** strconv.ParseInt in base 10 for 64 bits: an optional sign, digits, and the range. */
  function ParseInt(s: string): Option<Int64> {
    var negative := s != "" && s[0] == '-';
    var n := ParseDigits(if s != "" && (s[0] == '-' || s[0] == '+') then s[1..] else s);
    if n.None? then None
    else
      var i: int := if negative then -(n.value as int) else n.value;
      if -TWO_63 <= i < TWO_63 then Some(i) else None
  }

  lemma DigitIsRead(d: int)
    requires 0 <= d < 10
    ensures DigitValue(Digit(d)) == Some(d)
  {
    assert d == 0 || d == 1 || d == 2 || d == 3 || d == 4 || d == 5 || d == 6 || d == 7 || d == 8 || d == 9;
  }

  lemma {:induction false} DigitsAreRead(n: nat)
    ensures ParseDigits(Digits(n)) == Some(n) && '0' <= Digits(n)[0] <= '9'
  {
    if n < 10 {
      DigitIsRead(n);
    } else {
      DigitsAreRead(n / 10);
      DigitIsRead(n % 10);
      var s := Digits(n);
      assert s[..|s| - 1] == Digits(n / 10) && s[|s| - 1] == Digit(n % 10);
    }
  }

  lemma IntIsRead(i: Int64)
    ensures ParseInt(FormatInt(i)) == Some(i)
  {
    var n: int := i;
    DigitsAreRead(if n < 0 then -n else n);
    hide Digits, ParseDigits;
    if n < 0 {
      var s := Digits(-n);
      assert ("-" + s)[1..] == s && ("-" + s)[0] == '-';
    }
  }

  function Zeros(z: nat): string {
    seq(z, _ => '0')
  }

  lemma DigitOf(c: char)
    ensures DigitValue(c).Some? ==> 0 <= DigitValue(c).value < 10 && Digit(DigitValue(c).value) == c
  {
    if '0' <= c <= '9' {
      assert c in ['0', '1', '2', '3', '4', '5', '6', '7', '8', '9'];
    }
  }

  lemma DigitsSnoc(m: nat, d: int)
    requires 0 <= d < 10
    ensures Digits(d) == [Digit(d)] && (m > 0 ==> Digits(m * 10 + d) == Digits(m) + [Digit(d)])
  {
    if m > 0 {
      assert (m * 10 + d) / 10 == m && (m * 10 + d) % 10 == d;
    }
  }

  lemma ZerosSnoc(z: nat)
    ensures Zeros(0) == "" && Zeros(z) + "0" == Zeros(z + 1)
  {
  }

  /** Digits are leading zeros and the shortest text of their value. */
  lemma {:induction false} ParsedShape(s: string) returns (z: nat)
    requires ParseDigits(s).Some?
    ensures s == Zeros(z) + Digits(ParseDigits(s).value)
  {
    hide Digits, Zeros, Digit, DigitValue;
    var init, last := s[..|s| - 1], s[|s| - 1];
    DigitOf(last);
    var d := DigitValue(last).value;
    DigitsSnoc(0, d);
    if |s| == 1 {
      z := 0;
      ZerosSnoc(0);
      assert s == "" + [last];
    } else {
      var y := ParsedShape(init);
      var m := ParseDigits(init).value;
      assert s == init + [last];
      if m == 0 {
        z := y + 1;
        DigitsSnoc(0, 0);
        ZerosSnoc(y);
        ZeroDigit();
      } else {
        z := y;
        DigitsSnoc(m, d);
        assert Zeros(y) + (Digits(m) + [last]) == Zeros(y) + Digits(m) + [last];
      }
    }
  }

  lemma ZeroDigit()
    ensures Digit(0) == '0'
  {
  }

  lemma {:induction false} ZerosAreRead(z: nat)
    ensures z > 0 ==> ParseDigits(Zeros(z)) == Some(0)
  {
    if z > 1 {
      ZerosAreRead(z - 1);
      assert Zeros(z)[..z - 1] == Zeros(z - 1);
    }
  }

  lemma FirstDigit(d: int)
    requires 0 <= d < 10
    ensures '0' <= Digit(d) <= '9'
  {
  }

  lemma {:induction false} PaddedIsRead(z: nat, n: nat)
    ensures ParseDigits(Zeros(z) + Digits(n)) == Some(n) && '0' <= (Zeros(z) + Digits(n))[0] <= '9'
  {
    hide Digits, Digit, DigitValue;
    var s, d := Zeros(z) + Digits(n), n % 10;
    DigitIsRead(d);
    DigitsSnoc(n / 10, d);
    if n < 10 {
      assert s == Zeros(z) + [Digit(n)];
      assert s[..|s| - 1] == Zeros(z) && s[|s| - 1] == Digit(n);
      ZerosAreRead(z);
      FirstDigit(n);
    } else {
      assert s == Zeros(z) + Digits(n / 10) + [Digit(d)];
      assert s[..|s| - 1] == Zeros(z) + Digits(n / 10) && s[|s| - 1] == Digit(d);
      PaddedIsRead(z, n / 10);
    }
  }

  function Magnitude(i: int): nat {
    if i < 0 then -i else i
  }

  /** A text of an integer: a sign that fits, leading zeros, and the shortest digits. */
  ghost predicate IntText(s: string, i: int, sign: string, z: nat) {
    sign in ["", "+", "-"] && (i < 0 ==> sign == "-") && (i > 0 ==> sign != "-") &&
    s == sign + Zeros(z) + Digits(Magnitude(i))
  }

  lemma ReadIsIntText(s: string, i: Int64)
    requires ParseInt(s) == Some(i)
    ensures exists sign, z :: IntText(s, i, sign, z)
  {
    hide ParseDigits, Digits, Zeros;
    var sign := if s != "" && (s[0] == '-' || s[0] == '+') then s[..1] else "";
    assert s[0..] == s && (sign == "" || sign == [s[0]]);
    var z := ParsedShape(s[|sign|..]);
    var digits := Digits(Magnitude(i));
    assert s == sign + s[|sign|..];
    assert sign + (Zeros(z) + digits) == sign + Zeros(z) + digits;
    assert IntText(s, i, sign, z);
  }

  lemma IntTextIsRead(s: string, i: Int64, sign: string, z: nat)
    requires IntText(s, i, sign, z)
    ensures ParseInt(s) == Some(i)
  {
    hide ParseDigits, Digits, Zeros, ParseInt;
    var n := Magnitude(i);
    var digits := Zeros(z) + Digits(n);
    PaddedIsRead(z, n);
    SignedIsRead(sign, digits, i);
    assert sign + Zeros(z) + Digits(n) == sign + digits;
  }

  lemma SignedIsRead(sign: string, digits: string, i: Int64)
    requires digits != "" && '0' <= digits[0] <= '9' && ParseDigits(digits) == Some(Magnitude(i))
    requires sign in ["", "+", "-"] && (i < 0 ==> sign == "-") && (i > 0 ==> sign != "-")
    ensures ParseInt(sign + digits) == Some(i)
  {
    hide ParseDigits;
    var s := sign + digits;
    if sign == "" {
      assert s == digits;
    } else {
      assert s[0] == sign[0] && s[1..] == digits;
    }
  }

  /** Exactly such texts are read, and as that integer. */
  lemma ParseIntIff(s: string, i: Int64)
    ensures ParseInt(s) == Some(i) <==> exists sign, z :: IntText(s, i, sign, z)
  {
    hide ParseInt, IntText;
    if ParseInt(s) == Some(i) {
      ReadIsIntText(s, i);
    }
    if sign, z :| IntText(s, i, sign, z) {
      IntTextIsRead(s, i, sign, z);
    }
  }

  /** strconv.ParseBool. */
  function ParseBool(s: string): Option<bool> {
    if s in ["1", "t", "T", "TRUE", "true", "True"] then Some(true)
    else if s in ["0", "f", "F", "FALSE", "false", "False"] then Some(false)
    else None
  }

  // ----- one field -----

  function FormatScalar(v: Scalar): string {
    match v
    case Text(s) => s
    case Int(i) => FormatInt(i)
    case Bool(b) => if b then "true" else "false"
  }

  function ParseScalar(kind: Kind, s: string): Option<Scalar> {
    match kind
    case TextKind => Some(Text(s))
    case IntKind => (var i := ParseInt(s); if i.Some? then Some(Int(i.value)) else None)
    case BoolKind => (var b := ParseBool(s); if b.Some? then Some(Bool(b.value)) else None)
  }

  lemma ScalarIsRead(v: Scalar)
    ensures ParseScalar(KindOf(v), FormatScalar(v)) == Some(v)
  {
    if v.Int? {
      IntIsRead(v.i);
    }
  }

  lemma OnlyTextIsEmpty(v: Scalar)
    ensures FormatScalar(v) == "" <==> v == Text("")
  {
    if v.Int? {
      assert FormatInt(v.i) != "";
    }
  }

  /** The text of a field, `None` for the field that is skipped. */
  function Store(v: Value): Option<string> {
    match v
    case Plain(x) => Some(FormatScalar(x))
    case Pointer(_, None) => Some("")
    case Pointer(_, Some(x)) => Some(FormatScalar(x))
    case Deleted(_) => None
  }

  /** Loads text into a field that holds `v`; `None` when it cannot be parsed. */
  function Load(v: Value, text: string, parseTime: string -> Option<int>): Option<Value> {
    match v
    case Plain(x) =>
      (var y := ParseScalar(KindOf(x), text); if y.Some? then Some(Plain(y.value)) else None)
    case Pointer(kind, _) =>
      if text == "" then Some(v)
      else (var y := ParseScalar(kind, text); if y.Some? then Some(Pointer(kind, Some(y.value))) else None)
    case Deleted(_) =>
      if text == "" then Some(v)
      else (var t := parseTime(text); if t.Some? then Some(Deleted(t)) else None)
  }

  /** A field of a new object of the same type. */
  function Zero(v: Value): Value {
    match v
    case Plain(Text(_)) => Plain(Text(""))
    case Plain(Int(_)) => Plain(Int(0))
    case Plain(Bool(_)) => Plain(Bool(false))
    case Pointer(kind, _) => Pointer(kind, None)
    case Deleted(_) => Deleted(None)
  }

  /** What any text of the hash loads as: every string, the twelve texts of a boolean, and
      for a soft-delete time what the clock's format accepts; an empty text leaves a
      pointer and a time as they are. */
  lemma LoadIff(v: Value, text: string, parseTime: string -> Option<int>)
    ensures v.Plain? && v.v.Text? ==> Load(v, text, parseTime) == Some(Plain(Text(text)))
    ensures v.Plain? && v.v.Bool? ==> forall b ::
      Load(v, text, parseTime) == Some(Plain(Bool(b))) <==>
      text in if b then ["1", "t", "T", "true", "TRUE", "True"] else ["0", "f", "F", "false", "FALSE", "False"]
    ensures v.Pointer? && text != "" ==> forall y ::
      Load(v, text, parseTime) == Some(Pointer(v.kind, Some(y))) <==> ParseScalar(v.kind, text) == Some(y)
    ensures v.Deleted? && text != "" ==> forall at ::
      Load(v, text, parseTime) == Some(Deleted(Some(at))) <==> parseTime(text) == Some(at)
    ensures !v.Plain? && text == "" ==> Load(v, text, parseTime) == Some(v)
  {
  }

  function LoadField(v: Value, text: Option<string>, parseTime: string -> Option<int>): Option<Value> {
    if text.None? then Some(v) else Load(v, text.value, parseTime)
  }

  /** What a round trip cannot represent: a pointer to the empty string, and a set
      soft-delete time. */
  predicate Representable(v: Value) {
    v != Pointer(TextKind, Some(Text(""))) && (v.Deleted? ==> v.at.None?)
  }

  /** A field comes back as it was exactly when it is representable, and never fails. */
  lemma FieldRoundTripIff(v: Value, parseTime: string -> Option<int>)
    requires WellTyped(v)
    ensures var r := LoadField(Zero(v), Store(v), parseTime);
      r.Some? && (r.value == v <==> Representable(v))
  {
    match v
    case Plain(x) => ScalarIsRead(x);
    case Pointer(kind, Some(x)) =>
      ScalarIsRead(x);
      OnlyTextIsEmpty(x);
    case Pointer(kind, None) =>
    case Deleted(_) =>
  }

  // ----- whole structs -----

  function Stored(fields: seq<Field>, n: nat): map<Name, string>
    requires n <= |fields|
  {
    if n == 0 then map[]
    else
      var data, f := Stored(fields, n - 1), fields[n - 1];
      if Store(f.value).Some? then data[f.name := Store(f.value).value] else data
  }

  /** `RedisHSetObj`, up to the transaction. */
  method StoreObject(fields: seq<Field>) returns (data: map<Name, string>)
    ensures data == Stored(fields, |fields|)
  {
    data := map[];
    for i := 0 to |fields|
      invariant data == Stored(fields, i)
    {
      var f := fields[i];
      match f.value {
        case Deleted(_) =>
        case Pointer(_, None) => data := data[f.name := ""];
        case Pointer(_, Some(x)) => data := data[f.name := FormatScalar(x)];
        case Plain(x) => data := data[f.name := FormatScalar(x)];
      }
    }
  }

  function TextOf(data: map<Name, string>, name: Name): Option<string> {
    if name in data then Some(data[name]) else None
  }

  /** The first `n` fields after loading, `None` after an error. */
  function Loaded(fields: seq<Field>, data: map<Name, string>, parseTime: string -> Option<int>, n: nat):
    Option<seq<Field>>
    requires n <= |fields|
  {
    if n == 0 then Some([])
    else
      var f := fields[n - 1];
      var rest, v := Loaded(fields, data, parseTime, n - 1), LoadField(f.value, TextOf(data, f.name), parseTime);
      if rest.None? || v.None? then None else Some(rest.value + [Field(f.name, v.value)])
  }

  lemma {:induction false} ErrorsStay(fields: seq<Field>, data: map<Name, string>, parseTime: string -> Option<int>,
                                      n: nat, m: nat)
    requires n <= m <= |fields| && Loaded(fields, data, parseTime, n).None?
    ensures Loaded(fields, data, parseTime, m).None?
    decreases m
  {
    if n < m {
      ErrorsStay(fields, data, parseTime, n, m - 1);
    }
  }

  /** An empty hash means the key is missing. */
  function LoadedObject(fields: seq<Field>, data: map<Name, string>, parseTime: string -> Option<int>):
    Option<seq<Field>>
  {
    if data == map[] then None else Loaded(fields, data, parseTime, |fields|)
  }

  /** `RedisHGetObj` once the hash is there. */
  method LoadObject(target: seq<Field>, data: map<Name, string>, parseTime: string -> Option<int>)
    returns (r: Option<seq<Field>>)
    ensures r == LoadedObject(target, data, parseTime)
  {
    if data == map[] {
      return None;
    }
    var done: seq<Field> := [];
    for i := 0 to |target|
      invariant Loaded(target, data, parseTime, i) == Some(done)
    {
      var f := target[i];
      var v := f.value;
      if f.name in data {
        var loaded := Load(v, data[f.name], parseTime);
        if loaded.None? {
          ErrorsStay(target, data, parseTime, i + 1, |target|);
          return None;
        }
        v := loaded.value;
      }
      done := done + [Field(f.name, v)];
    }
    return Some(done);
  }

  /** Loading any hash fills each field with what its text loads as, leaves fields without
      a text as they are, and fails exactly when some text does not parse. */
  lemma {:induction false} LoadedEach(fields: seq<Field>, data: map<Name, string>, parseTime: string -> Option<int>,
                                      n: nat)
    requires n <= |fields|
    ensures var r := Loaded(fields, data, parseTime, n);
      && (r.None? <==> exists i :: 0 <= i < n && fields[i].name in data &&
                                   Load(fields[i].value, data[fields[i].name], parseTime).None?)
      && (r.Some? ==> |r.value| == n)
      && (r.Some? ==> forall i :: 0 <= i < n ==>
            && r.value[i].name == fields[i].name
            && if fields[i].name in data
               then Load(fields[i].value, data[fields[i].name], parseTime) == Some(r.value[i].value)
               else r.value[i].value == fields[i].value)
  {
    hide Load;
    if n > 0 {
      LoadedEach(fields, data, parseTime, n - 1);
    }
  }

  predicate DistinctNames(fields: seq<Field>) {
    forall i, j :: 0 <= i < j < |fields| ==> fields[i].name != fields[j].name
  }

  /** The hash holds exactly the stored fields. */
  lemma {:induction false} StoredText(fields: seq<Field>, n: nat, i: nat)
    requires DistinctNames(fields) && i < |fields| && n <= |fields|
    ensures TextOf(Stored(fields, n), fields[i].name) == if i < n then Store(fields[i].value) else None
  {
    if n > 0 {
      StoredText(fields, n - 1, i);
    }
  }

  function ZeroFields(fields: seq<Field>): seq<Field> {
    seq(|fields|, i requires 0 <= i < |fields| => Field(fields[i].name, Zero(fields[i].value)))
  }

  lemma {:induction false} LoadedFields(fields: seq<Field>, parseTime: string -> Option<int>, n: nat)
    requires DistinctNames(fields) && n <= |fields| && forall i :: 0 <= i < |fields| ==> WellTyped(fields[i].value)
    ensures var r := Loaded(ZeroFields(fields), Stored(fields, |fields|), parseTime, n);
      && r.Some? && |r.value| == n
      && forall i :: 0 <= i < n ==> (r.value[i] == fields[i] <==> Representable(fields[i].value))
  {
    if n > 0 {
      LoadedFields(fields, parseTime, n - 1);
      StoredText(fields, |fields|, n - 1);
      FieldRoundTripIff(fields[n - 1].value, parseTime);
    }
  }

  /** Nothing is stored exactly when there is nothing but soft-delete fields. */
  lemma {:induction false} NothingStoredIff(fields: seq<Field>, n: nat)
    requires n <= |fields|
    ensures Stored(fields, n) == map[] <==> forall i :: 0 <= i < n ==> fields[i].value.Deleted?
  {
    if n > 0 {
      NothingStoredIff(fields, n - 1);
      if !fields[n - 1].value.Deleted? {
        assert fields[n - 1].name in Stored(fields, n);
      }
    }
  }

  /** Main theorem: loading a stored struct into a new one returns the same struct exactly
      when some field is stored, so that the key is not missing, and every field is
      representable; it never fails on a field. */
  lemma RoundTripIff(fields: seq<Field>, parseTime: string -> Option<int>)
    requires DistinctNames(fields) && forall i :: 0 <= i < |fields| ==> WellTyped(fields[i].value)
    ensures var data := Stored(fields, |fields|);
      var r := LoadedObject(ZeroFields(fields), data, parseTime);
      && (r == None <==> forall i :: 0 <= i < |fields| ==> fields[i].value.Deleted?)
      && (r == Some(fields) <==>
            && (exists i :: 0 <= i < |fields| && !fields[i].value.Deleted?)
            && forall i :: 0 <= i < |fields| ==> Representable(fields[i].value))
  {
    LoadedFields(fields, parseTime, |fields|);
    NothingStoredIff(fields, |fields|);
    var r := Loaded(ZeroFields(fields), Stored(fields, |fields|), parseTime, |fields|).value;
    hide Loaded, Stored, Representable, ZeroFields;
    if forall i :: 0 <= i < |fields| ==> Representable(fields[i].value) {
      assert r == fields;
    } else {
      var i :| 0 <= i < |fields| && !Representable(fields[i].value);
      assert r[i] != fields[i];
    }
  }
}
