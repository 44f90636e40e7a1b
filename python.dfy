/**
  The few Python built-ins the hub's formatting and conversion code relies on: truth testing,
  `str()`, `str.lower()`, `dict.get` and `int()` on a string.
*/
module Python {
  import opened Wrappers

  /**
    The values that reach the hub: the cloud library hands over booleans, numbers, strings and
    dictionaries; `json.loads` may also produce `None`. A float and a dictionary carry the text
    `str()` renders them as.
  */
  datatype PyValue =
    | PyNone
    | PyBool(b: bool)
    | PyInt(i: int)
    | PyFloat(repr: string)
    | PyStr(s: string)
    | PyDict(entries: map<string, PyValue>, repr: string)

  /**
    Truth value testing: `None`, `False`, zero, the empty string and the empty dict are false.
    A false scalar is one whose `str()` is among the texts of the false scalars.
  */
  predicate Truthy(v: PyValue)
    ensures !Truthy(v) && !v.PyDict? ==> Str(v) in ["None", "False", "0", "0.0", "-0.0", ""]
    ensures v.PyBool? ==> (Truthy(v) <==> Str(v) == "True")
    ensures v == PyNone ==> !Truthy(v)
  {
    match v
    case PyNone => false
    case PyBool(b) => b
    case PyInt(i) => i != 0
    case PyFloat(r) => r != "0.0" && r != "-0.0"
    case PyStr(s) => s != ""
    case PyDict(entries, _) => |entries| != 0
  }

  /** `d.get(key, default)`. */
  function Get(entries: map<string, PyValue>, key: string, default: PyValue): (r: PyValue)
    ensures key in entries ==> r == entries[key]
    ensures key !in entries ==> r == default
  {
    if key in entries then entries[key] else default
  }

  /** The decimal digit `d` as a character. */
  function DigitChar(d: nat): (c: char)
    requires d < 10
    ensures '0' <= c <= '9' && c as int - '0' as int == d
  {
    ('0' as int + d) as char
  }

  predicate IsDigit(c: char) {
    '0' <= c <= '9'
  }

  predicate AllDigits(s: string) {
    forall i :: 0 <= i < |s| ==> IsDigit(s[i])
  }

  /** The decimal numeral of `n`, most significant digit first, without leading zeros. */
  function NatToDecimal(n: nat): (s: string)
    ensures |s| >= 1 && AllDigits(s)
    ensures s[0] == '0' ==> n == 0
    decreases n
  {
    if n < 10 then [DigitChar(n)] else NatToDecimal(n / 10) + [DigitChar(n % 10)]
  }

  /** `str()` of an `int`: a minus sign in front of the magnitude's numeral when negative. */
  function IntToString(i: int): (s: string)
    ensures |s| >= 1 && (i < 0 <==> s[0] == '-')
    ensures i >= 0 ==> AllDigits(s)
  {
    if i < 0 then "-" + NatToDecimal(-i) else NatToDecimal(i)
  }

  /**
    `str()`. The text of an integer reads back through `int()` as that integer, the text of a
    string is the string, and the text of a boolean lowers to "true" exactly for `True`.
  */
  function Str(v: PyValue): (r: string)
    ensures v.PyStr? ==> r == v.s
    ensures v.PyInt? ==> ParseInt(r) == Some(v.i)
    ensures v.PyBool? ==> (Lower(r) == "true" <==> v.b)
  {
    match v
    case PyNone => "None"
    case PyBool(b) => LowerIsTrue("True"); if b then "True" else "False"
    case PyInt(i) => ParseIntOfNumeral(i); IntToString(i)
    case PyFloat(r) => r
    case PyStr(s) => s
    case PyDict(_, r) => r
  }

  /** One character of `str.lower()`; only the ASCII capitals are folded here. */
  function LowerChar(c: char): char {
    if 'A' <= c <= 'Z' then (c as int + 32) as char else c
  }

  /** `str.lower()`, character by character. */
  function Lower(s: string): (r: string)
    ensures |r| == |s|
    ensures forall i :: 0 <= i < |s| ==> r[i] == LowerChar(s[i])
  {
    if s == [] then [] else [LowerChar(s[0])] + Lower(s[1..])
  }

  /** A string without ASCII capitals is its own lower-case form. */
  lemma LowerOfLowerCase(s: string)
    requires forall i :: 0 <= i < |s| ==> !('A' <= s[i] <= 'Z')
    ensures Lower(s) == s
  {
  }

  /** A lower-case letter is what exactly its two cases lower to. */
  lemma LowerCharIs(c: char, lower: char)
    requires 'a' <= lower <= 'z'
    ensures LowerChar(c) == lower <==> c == lower || c as int == lower as int - 32
  {
  }

  /**
    `x.lower() == 'true'` is a case-insensitive comparison: it holds exactly for the four-letter
    spellings of "true" in any mix of cases.
  */
  lemma LowerIsTrue(s: string)
    ensures Lower(s) == "true" <==>
              |s| == 4 && (s[0] == 't' || s[0] == 'T') && (s[1] == 'r' || s[1] == 'R') &&
              (s[2] == 'u' || s[2] == 'U') && (s[3] == 'e' || s[3] == 'E')
  {
    if |s| == 4 {
      var r := Lower(s);
      LowerCharIs(s[0], 't');
      LowerCharIs(s[1], 'r');
      LowerCharIs(s[2], 'u');
      LowerCharIs(s[3], 'e');
      IsTrueText(r);
    }
  }

  /** A four-character string is "true" exactly when its characters are. */
  lemma IsTrueText(r: string)
    requires |r| == 4
    ensures r == "true" <==> r[0] == 't' && r[1] == 'r' && r[2] == 'u' && r[3] == 'e'
  {
    if r[0] == 't' && r[1] == 'r' && r[2] == 'u' && r[3] == 'e' {
      assert r == [r[0], r[1], r[2], r[3]];
    }
  }

  // ----- str.split -----

  /**
    `s.split(sep)` for a one-character separator: the pieces between separators, empty ones
    included, so a text without the separator is one piece and the empty text is one empty piece.
  */
  function Split(s: string, sep: char): (r: seq<string>)
    ensures |r| >= 1
    decreases |s|
  {
    if s == [] then [[]]
    else if s[0] == sep then [[]] + Split(s[1..], sep)
    else
      var rest := Split(s[1..], sep);
      [[s[0]] + rest[0]] + rest[1..]
  }

  /** A text without the separator splits into itself alone. */
  lemma {:induction false} SplitWithoutSeparator(a: string, sep: char)
    requires sep !in a
    ensures Split(a, sep) == [a]
    decreases |a|
  {
    if a != [] {
      assert a[0] in a;
      assert forall c :: c in a[1..] ==> c in a;
      SplitWithoutSeparator(a[1..], sep);
      assert a[0] != sep && [a[0]] + a[1..] == a;
    }
  }

  /** Splitting `a + sep + b`, where `a` holds no separator, gives `a` and then the pieces of `b`. */
  lemma {:induction false} SplitJoined(a: string, sep: char, b: string)
    requires sep !in a
    ensures Split(a + [sep] + b, sep) == [a] + Split(b, sep)
    decreases |a|
  {
    var s := a + [sep] + b;
    if a == [] {
      assert s == [sep] + b && s[1..] == b;
    } else {
      assert a[0] in a;
      assert forall c :: c in a[1..] ==> c in a;
      assert s[0] == a[0] && s[1..] == a[1..] + [sep] + b;
      SplitJoined(a[1..], sep, b);
      assert [a[0]] + a[1..] == a;
    }
  }

  // ----- int() on a string -----

  /** The ASCII characters `int()` strips from both ends: space, and tab through carriage return. */
  predicate IsSpace(c: char) {
    c == ' ' || 9 <= c as int <= 13
  }

  function TrimLeft(s: string): (r: string)
    ensures |r| <= |s| && r == s[|s| - |r|..]
    ensures r != [] ==> !IsSpace(r[0])
  {
    if s != [] && IsSpace(s[0]) then TrimLeft(s[1..]) else s
  }

  function TrimRight(s: string): (r: string)
    ensures |r| <= |s| && r == s[..|r|]
    ensures r != [] ==> !IsSpace(r[|r| - 1])
  {
    if s != [] && IsSpace(s[|s| - 1]) then TrimRight(s[..|s| - 1]) else s
  }

  /** Digits, with single underscores allowed between two digits: `1_000` but not `_1`, `1_` or `1__0`. */
  predicate DigitGroups(s: string) {
    |s| >= 1 && IsDigit(s[0]) && IsDigit(s[|s| - 1]) &&
    (forall i :: 0 <= i < |s| ==> IsDigit(s[i]) || s[i] == '_') &&
    (forall i :: 0 <= i < |s| - 1 ==> !(s[i] == '_' && s[i + 1] == '_'))
  }

  function RemoveUnderscores(s: string): (r: string)
    requires forall i :: 0 <= i < |s| ==> IsDigit(s[i]) || s[i] == '_'
    ensures AllDigits(r)
    ensures AllDigits(s) ==> r == s
  {
    if s == [] then []
    else (if s[0] == '_' then [] else [s[0]]) + RemoveUnderscores(s[1..])
  }

  /** The value of a numeral, most significant digit first. */
  function DigitsValue(s: string): nat
    requires AllDigits(s)
  {
    if s == [] then 0
    else DigitsValue(s[..|s| - 1]) * 10 + (s[|s| - 1] as int - '0' as int)
  }

  /** The magnitude and sign part of a stripped `int()` argument. */
  function ParseSigned(t: string): (r: Option<int>)
    ensures t == [] ==> r == None
  {
    if t == [] then None
    else
      var negative := t[0] == '-';
      var body := if t[0] == '-' || t[0] == '+' then t[1..] else t;
      if DigitGroups(body) then
        var magnitude: int := DigitsValue(RemoveUnderscores(body));
        Some(if negative then -magnitude else magnitude)
      else None
  }

  /**
    `int(s)` for a string in base 10: surrounding whitespace is ignored, one optional sign, then
    digit groups. `None` stands for the `ValueError` it raises on anything else.
  */
  function ParseInt(s: string): (r: Option<int>)
    ensures TrimRight(TrimLeft(s)) == [] ==> r == None
    ensures r.Some? ==> forall i :: 0 <= i < |s| ==>
              IsSpace(s[i]) || IsDigit(s[i]) || s[i] == '_' || s[i] == '+' || s[i] == '-'
  {
    ParseIntCharacters(s);
    ParseSigned(TrimRight(TrimLeft(s)))
  }

  /** Every character of a text `int()` accepts is whitespace, a digit, an underscore or a sign. */
  lemma ParseIntCharacters(s: string)
    ensures ParseSigned(TrimRight(TrimLeft(s))).Some? ==> forall i :: 0 <= i < |s| ==>
              IsSpace(s[i]) || IsDigit(s[i]) || s[i] == '_' || s[i] == '+' || s[i] == '-'
  {
    var u := TrimLeft(s);
    var t := TrimRight(u);
    var p := |s| - |u|;
    if ParseSigned(t).Some? {
      TrimLeftStripsSpaces(s);
      TrimRightStripsSpaces(u);
      SignedCharacters(t);
      forall i | 0 <= i < |s|
        ensures IsSpace(s[i]) || IsDigit(s[i]) || s[i] == '_' || s[i] == '+' || s[i] == '-'
      {
        if p <= i {
          assert s[i] == u[i - p];
          if i - p < |t| {
            assert u[i - p] == t[i - p];
          }
        }
      }
    }
  }

  /** What `TrimLeft` removes is whitespace. */
  lemma {:induction false} TrimLeftStripsSpaces(s: string)
    ensures forall i :: 0 <= i < |s| - |TrimLeft(s)| ==> IsSpace(s[i])
    decreases |s|
  {
    if s != [] && IsSpace(s[0]) {
      TrimLeftStripsSpaces(s[1..]);
      forall i | 1 <= i < |s| - |TrimLeft(s)| ensures IsSpace(s[i]) {
        assert s[i] == s[1..][i - 1];
      }
    }
  }

  /** What `TrimRight` removes is whitespace. */
  lemma {:induction false} TrimRightStripsSpaces(s: string)
    ensures forall i :: |TrimRight(s)| <= i < |s| ==> IsSpace(s[i])
    decreases |s|
  {
    if s != [] && IsSpace(s[|s| - 1]) {
      TrimRightStripsSpaces(s[..|s| - 1]);
    }
  }

  /** A text `ParseSigned` accepts holds only digits, underscores and signs. */
  lemma SignedCharacters(t: string)
    ensures ParseSigned(t).Some? ==> forall i :: 0 <= i < |t| ==>
              IsDigit(t[i]) || t[i] == '_' || t[i] == '+' || t[i] == '-'
  {
    if ParseSigned(t).Some? {
      var body := if t[0] == '-' || t[0] == '+' then t[1..] else t;
      forall i | 0 <= i < |t|
        ensures IsDigit(t[i]) || t[i] == '_' || t[i] == '+' || t[i] == '-'
      {
        if i > 0 && body == t[1..] {
          assert t[i] == body[i - 1];
        }
      }
    }
  }

  /** Reading back a numeral gives the number it was written from. */
  lemma {:induction false} DigitsValueOfDecimal(n: nat)
    ensures DigitsValue(NatToDecimal(n)) == n
    decreases n
  {
    if n >= 10 {
      var s := NatToDecimal(n);
      assert s[..|s| - 1] == NatToDecimal(n / 10);
      DigitsValueOfDecimal(n / 10);
    }
  }

  /** A numeral is its own digit groups. */
  lemma DecimalIsDigitGroups(s: string)
    requires |s| >= 1 && AllDigits(s)
    ensures DigitGroups(s)
  {
  }

  /** A numeral, with a minus sign for a negative number, parses back to that number. */
  lemma ParseSignedOfString(n: int)
    ensures ParseSigned(IntToString(n)) == Some(n)
  {
    var s := IntToString(n);
    var m: nat := if n < 0 then -n else n;
    var mag := NatToDecimal(m);
    DecimalIsDigitGroups(mag);
    DigitsValueOfDecimal(m);
    if n < 0 {
      assert s[1..] == mag;
    }
  }

  /**
    Round trip: `int(str(n)) == n` for every integer, whitespace around the numeral included, so an
    integer a device prints reaches the cloud unchanged.
  */
  lemma ParseIntOfString(n: int, before: string, after: string)
    requires forall i :: 0 <= i < |before| ==> IsSpace(before[i])
    requires forall i :: 0 <= i < |after| ==> IsSpace(after[i])
    ensures ParseInt(before + IntToString(n) + after) == Some(n)
  {
    var s := IntToString(n);
    assert before + s + after == before + (s + after);
    TrimLeftSpaces(before, s + after);
    TrimRightSpaces(s, after);
    assert TrimRight(TrimLeft(before + s + after)) == s;
    ParseSignedOfString(n);
  }

  /** `int(str(n)) == n`. */
  lemma ParseIntOfNumeral(n: int)
    ensures ParseInt(IntToString(n)) == Some(n)
  {
    var s := IntToString(n);
    var m: nat := if n < 0 then -n else n;
    var mag := NatToDecimal(m);
    assert s[|s| - 1] == mag[|mag| - 1];
    assert IsDigit(mag[|mag| - 1]);
    assert TrimLeft(s) == s;
    assert TrimRight(s) == s;
    ParseSignedOfString(n);
  }

  lemma {:induction false} TrimLeftSpaces(spaces: string, s: string)
    requires forall i :: 0 <= i < |spaces| ==> IsSpace(spaces[i])
    requires s != [] && !IsSpace(s[0])
    ensures TrimLeft(spaces + s) == s
    decreases |spaces|
  {
    if spaces != [] {
      assert (spaces + s)[1..] == spaces[1..] + s;
      TrimLeftSpaces(spaces[1..], s);
    }
  }

  lemma {:induction false} TrimRightSpaces(s: string, spaces: string)
    requires forall i :: 0 <= i < |spaces| ==> IsSpace(spaces[i])
    requires s != [] && !IsSpace(s[|s| - 1])
    ensures TrimRight(s + spaces) == s
    decreases |spaces|
  {
    if spaces != [] {
      var p := spaces[..|spaces| - 1];
      assert (s + spaces)[..|s + spaces| - 1] == s + p;
      TrimRightSpaces(s, p);
    }
  }
}
