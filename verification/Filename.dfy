/** Job identifiers as file names: every character that does not belong in one is written as '_' and
    its hexadecimal code. */
module Filename {
  import opened Common

  /** Strings hold the bytes of a C++ string. */
  predicate IsBytes(s: string) {
    forall i :: 0 <= i < |s| ==> s[i] as int < 256
  }

  predicate IsSevenBit(s: string) {
    forall i :: 0 <= i < |s| ==> s[i] as int < 128
  }

  // ---------------------------------------------------------------------
  // HexInt

  /** hi_s_map. */
  function Digit(k: nat): char
    requires k < 16
  {
    if k < 10 then ('0' as int + k) as char else ('a' as int + k - 10) as char
  }

  function HexDigits(n: nat): string {
    if n == 0 then "" else HexDigits(n / 16) + [Digit(n % 16)]
  }

  /** At least two digits, as many as the number needs. */
  function Hex(n: nat): string {
    var d := HexDigits(n);
    if |d| < 2 then Zeros(2 - |d|) + d else d
  }

  lemma ReplaceZero(z: nat, digits: string, c: char)
    requires z > 0
    ensures (Zeros(z) + digits)[z - 1 := c] == Zeros(z - 1) + ([c] + digits)
  {
  }

  lemma NextDigit(ui: nat, digits: string)
    requires ui != 0
    ensures HexDigits(ui) + digits == HexDigits(ui / 16) + ([Digit(ui % 16)] + digits)
  {
  }

  /** The constructor from a number: digits replace the zeros from the right, then go in front. */
  method HexInt(n: nat) returns (str: string)
    ensures str == Hex(n)
  {
    str := "00";
    var ui, pos := n, 0;
    ghost var digits := "";
    while ui != 0
      invariant |digits| == pos && str == Zeros(if pos < 2 then 2 - pos else 0) + digits
      invariant HexDigits(n) == HexDigits(ui) + digits
    {
      var c := Digit(ui % 16);
      NextDigit(ui, digits);
      if pos < |str| {
        ReplaceZero(2 - pos, digits, c);
        str := str[|str| - 1 - pos := c];
      } else {
        str := [c] + str;
      }
      pos, digits := pos + 1, [c] + digits;
      ui := ui / 16;
    }
  }

  /** parseString on the two characters from_filename hands it: 0 unless both are digits. */
  function Parse(a: char, b: char): (v: nat)
    ensures v < 256
  {
    if DigitValue(a) == 16 || DigitValue(b) == 16 then 0 else DigitValue(a) * 16 + DigitValue(b)
  }

  /** parseString, from the last character to the first. */
  method ParseString(a: char, b: char) returns (n: nat)
    ensures n == Parse(a, b)
  {
    var str := [a, b];
    n := 0;
    var base, i := 1, 2;
    while i > 0
      invariant 0 <= i <= 2
      invariant i == 2 ==> n == 0 && base == 1
      invariant i == 1 ==> DigitValue(b) < 16 && n == DigitValue(b) && base == 16
      invariant i == 0 ==> n == Parse(a, b)
    {
      var v := DigitValue(str[i - 1]);
      if v == 16 {
        n := 0;
        break;
      }
      n := n + base * v;
      base := base * 16;
      i := i - 1;
    }
  }

  // ---------------------------------------------------------------------
  // Encoding

  predicate IsBad(c: char) {
    !('a' <= c <= 'z' || 'A' <= c <= 'Z' || '0' <= c <= '9' || c == '.' || c == '-' || c == ' ')
  }

  /** A char is signed: from 128 on it becomes a large unsigned int. */
  function Unsigned(c: char): nat {
    if c as int < 128 then c as int else c as int % 256 + 0xffff_ff00
  }

  function EncodeChar(c: char): string {
    if IsBad(c) then "_" + Hex(Unsigned(c)) else [c]
  }

  function Encode(s: string): string {
    if s == "" then "" else EncodeChar(s[0]) + Encode(s[1..])
  }

  /** from_filename, None where it reads past the end of the name. */
  function Decode(f: string): Option<string>
    decreases |f|
  {
    if f == "" then Some("")
    else if f[0] != '_' then Prefixed(f[0], Decode(f[1..]))
    else if |f| < 3 then None
    else Prefixed(Parse(f[1], f[2]) as char, Decode(f[3..]))
  }

  function Prefixed(c: char, rest: Option<string>): Option<string> {
    if rest.None? then None else Some([c] + rest.value)
  }

  /** One byte is two digits. */
  lemma HexOfByte(n: nat)
    requires n < 256
    ensures Hex(n) == [Digit(n / 16), Digit(n % 16)]
  {
    assert n / 16 / 16 == 0;
    if n >= 16 {
      assert HexDigits(n / 16) == HexDigits(0) + [Digit(n / 16)];
    } else if n > 0 {
      assert HexDigits(n) == HexDigits(0) + [Digit(n)];
    }
  }

  /** A sign-extended byte is eight. */
  lemma HexOfHigh(c: nat)
    requires 128 <= c < 256
    ensures Hex(c + 0xffff_ff00) == "ffffff" + [Digit(c / 16), Digit(c % 16)]
  {
    var n := c + 0xffff_ff00;
    assert n / 16 == c / 16 + 0x0fff_fff0 && n % 16 == c % 16;
    var m := n / 16;
    assert m / 16 == 0xff_ffff && m % 16 == c / 16;
    assert HexDigits(0xff_ffff) == "ffffff";
    assert HexDigits(m) == "ffffff" + [Digit(c / 16)];
  }

  lemma DigitBack(k: nat)
    requires k < 16
    ensures DigitValue(Digit(k)) == k && Digit(k) != '_' && !IsBad(Digit(k))
  {
  }

  /** What one encoded character is decoded to, whatever follows it. */
  lemma DecodeChar(c: char, rest: string)
    requires c as int < 128
    ensures Decode(EncodeChar(c) + rest) == Prefixed(c, Decode(rest))
  {
    var f := EncodeChar(c) + rest;
    if IsBad(c) {
      var n := c as int;
      HexOfByte(n);
      DigitBack(n / 16);
      DigitBack(n % 16);
      assert f[0] == '_' && f[1] == Digit(n / 16) && f[2] == Digit(n % 16) && f[3..] == rest;
    } else {
      assert f[0] == c && f[1..] == rest;
    }
  }

  lemma DecodePlain(c: char, rest: string)
    requires c != '_'
    ensures Decode([c] + rest) == Prefixed(c, Decode(rest))
  {
    assert ([c] + rest)[1..] == rest;
  }

  function Appended(s: string, rest: Option<string>): Option<string> {
    if rest.None? then None else Some(s + rest.value)
  }

  lemma AppendedTwice(s: string, t: string, rest: Option<string>)
    ensures Appended(s, Appended(t, rest)) == Appended(s + t, rest)
    ensures Appended("", rest) == rest
  {
    if rest.Some? {
      assert s + (t + rest.value) == (s + t) + rest.value && "" + rest.value == rest.value;
    }
  }

  lemma {:induction false} DecodeRun(s: string, t: string)
    requires forall i :: 0 <= i < |s| ==> s[i] != '_'
    ensures Decode(s + t) == Appended(s, Decode(t))
  {
    AppendedTwice(s, "", Decode(t));
    if s == "" {
      assert s + t == t;
    } else {
      DecodeRun(s[1..], t);
      assert s + t == [s[0]] + (s[1..] + t) && [s[0]] + s[1..] == s;
      DecodePlain(s[0], s[1..] + t);
      AppendedTwice([s[0]], s[1..], Decode(t));
    }
  }

  lemma DecodeCode(a: char, b: char, rest: string)
    ensures Decode("_" + [a, b] + rest) == Appended([Parse(a, b) as char], Decode(rest))
  {
    var f := "_" + [a, b] + rest;
    assert f[0] == '_' && f[1] == a && f[2] == b && f[3..] == rest;
  }

  predicate IsHex(c: char) {
    '0' <= c <= '9' || 'a' <= c <= 'f' || 'A' <= c <= 'F'
  }

  /** A code that is not two hexadecimal digits stands for the character zero. */
  lemma BadCodeIsZero(a: char, b: char, rest: string)
    requires !IsHex(a) || !IsHex(b)
    ensures Decode("_" + [a, b] + rest) == Appended([0 as char], Decode(rest))
  {
    DecodeCode(a, b, rest);
  }

  /** A name is cut short whose first '_' has fewer than two characters behind it. */
  lemma CutShort(s: string, rest: string)
    requires (forall i :: 0 <= i < |s| ==> s[i] != '_') && |rest| < 2
    ensures Decode(s + ("_" + rest)) == None && Decode(s) == Some(s)
  {
    DecodeRun(s, "_" + rest);
    DecodeRun(s, "");
    assert s + "" == s;
  }

  /** A byte from 128 on comes back as seven characters. */
  lemma DecodeHigh(c: char, rest: string)
    requires 128 <= c as int < 256 && Decode(rest).Some?
    ensures var d := Decode(EncodeChar(c) + rest);
            d.Some? && |d.value| == |Decode(rest).value| + 7
  {
    var n := c as int;
    HexOfHigh(n);
    DigitBack(n / 16);
    DigitBack(n % 16);
    var run := "ffff" + [Digit(n / 16), Digit(n % 16)];
    assert EncodeChar(c) + rest == "_" + ['f', 'f'] + (run + rest);
    DecodeCode('f', 'f', run + rest);
    DecodeRun(run, rest);
  }

  function HighBytes(s: string): nat {
    if s == "" then 0 else (if s[0] as int < 128 then 0 else 1) + HighBytes(s[1..])
  }

  lemma {:induction false} DecodedLength(s: string)
    requires IsBytes(s)
    ensures Decode(Encode(s)).Some? && |Decode(Encode(s)).value| == |s| + 6 * HighBytes(s)
    ensures HighBytes(s) == 0 <==> IsSevenBit(s)
  {
    if s != "" {
      DecodedLength(s[1..]);
      assert IsSevenBit(s) <==> s[0] as int < 128 && IsSevenBit(s[1..]) by {
        assert forall i :: 0 < i < |s| ==> s[i] == s[1..][i - 1];
      }
      if s[0] as int < 128 {
        DecodeChar(s[0], Encode(s[1..]));
      } else {
        DecodeHigh(s[0], Encode(s[1..]));
      }
    }
  }

  lemma {:induction false} SevenBitRoundTrip(s: string)
    requires IsSevenBit(s)
    ensures Decode(Encode(s)) == Some(s)
  {
    if s != "" {
      SevenBitRoundTrip(s[1..]);
      DecodeChar(s[0], Encode(s[1..]));
      assert s == [s[0]] + s[1..];
    }
  }

  /** Decoding undoes encoding exactly on 7-bit strings. */
  lemma RoundTrip(s: string)
    requires IsBytes(s)
    ensures Decode(Encode(s)) == Some(s) <==> IsSevenBit(s)
  {
    DecodedLength(s);
    if IsSevenBit(s) {
      SevenBitRoundTrip(s);
    }
  }

  /** Letters, digits, '.', '-' and ' '. */
  predicate IsPlain(c: char) {
    'a' <= c <= 'z' || 'A' <= c <= 'Z' || '0' <= c <= '9' || c == '.' || c == '-' || c == ' '
  }

  predicate IsClean(s: string) {
    forall i :: 0 <= i < |s| ==> IsPlain(s[i]) || s[i] == '_'
  }

  lemma {:induction false} EncodedIsNoShorter(s: string)
    ensures |Encode(s)| >= |s|
  {
    if s != "" {
      EncodedIsNoShorter(s[1..]);
    }
  }

  /** Exactly the identifiers made of plain characters are their own file names. */
  lemma {:induction false} PlainIsKept(s: string)
    ensures Encode(s) == s <==> forall i :: 0 <= i < |s| ==> IsPlain(s[i])
  {
    if s != "" {
      PlainIsKept(s[1..]);
      EncodedIsNoShorter(s[1..]);
      assert forall i :: 0 < i < |s| ==> s[i] == s[1..][i - 1];
      assert s == [s[0]] + s[1..];
      if IsPlain(s[0]) {
        assert Encode(s) == [s[0]] + Encode(s[1..]);
        assert Encode(s)[1..] == Encode(s[1..]);
      } else {
        assert |EncodeChar(s[0])| >= 2;
      }
    }
  }

  lemma CleanConcat(s: string, t: string)
    requires IsClean(s) && IsClean(t)
    ensures IsClean(s + t)
  {
  }

  lemma CodeIsClean(c: char)
    requires c as int < 256
    ensures IsClean(EncodeChar(c))
  {
    var n := c as int;
    DigitBack(n / 16);
    DigitBack(n % 16);
    var code := [Digit(n / 16), Digit(n % 16)];
    assert IsClean(code);
    if IsBad(c) && n < 128 {
      HexOfByte(n);
      CleanConcat("_", code);
    } else if IsBad(c) {
      HexOfHigh(n);
      assert "_" + ("ffffff" + code) == "_ffffff" + code;
      CleanConcat("_ffffff", code);
    }
  }

  /** File names hold letters, digits, '.', '-', ' ' and '_' only. */
  lemma {:induction false} EncodedIsClean(s: string)
    requires IsBytes(s)
    ensures IsClean(Encode(s))
  {
    if s != "" {
      CodeIsClean(s[0]);
      EncodedIsClean(s[1..]);
      CleanConcat(EncodeChar(s[0]), Encode(s[1..]));
    }
  }

  /** The three characters that tell a character apart from every other. */
  lemma SameFirst(c: char, d: char, x: string, y: string)
    requires c as int < 256 && d as int < 256 && EncodeChar(c) + x == EncodeChar(d) + y
    ensures c == d && x == y
  {
    var f, m, n := EncodeChar(c) + x, c as int, d as int;
    assert f[0] == EncodeChar(c)[0] == EncodeChar(d)[0];
    if IsBad(c) {
      CodeOf(c);
      CodeOf(d);
      assert f[1] == EncodeChar(c)[1] == EncodeChar(d)[1] && f[2] == EncodeChar(c)[2] == EncodeChar(d)[2];
      var k := |EncodeChar(c)|;
      assert |EncodeChar(d)| == k;
      assert f[k - 2] == EncodeChar(c)[k - 2] == EncodeChar(d)[k - 2];
      assert f[k - 1] == EncodeChar(c)[k - 1] == EncodeChar(d)[k - 1];
    }
    assert x == f[|EncodeChar(c)|..] && y == f[|EncodeChar(d)|..];
  }

  /** A code has its last two digits from the byte; it is a long one exactly when it starts with 'f'. */
  lemma CodeOf(c: char)
    requires c as int < 256 && IsBad(c)
    ensures var e, n := EncodeChar(c), c as int;
            && |e| == (if n < 128 then 3 else 9) && e[0] == '_'
            && e[|e| - 2] == Digit(n / 16) && e[|e| - 1] == Digit(n % 16)
            && DigitValue(e[|e| - 2]) == n / 16 && DigitValue(e[|e| - 1]) == n % 16
            && (n >= 128 <==> e[1] == 'f')
  {
    var n := c as int;
    DigitBack(n / 16);
    DigitBack(n % 16);
    if n < 128 {
      HexOfByte(n);
    } else {
      HexOfHigh(n);
    }
  }

  /** The code of a character: two digits up to 127, six more in front of them from 128 on. */
  lemma CodesAre(c: char)
    requires c as int < 256 && IsBad(c)
    ensures var n := c as int;
            EncodeChar(c) == (if n < 128 then "_" else "_ffffff") + [Digit(n / 16), Digit(n % 16)]
  {
    if c as int < 128 {
      HexOfByte(c as int);
    } else {
      HexOfHigh(c as int);
    }
  }

  /** No two identifiers share a file name, 7-bit or not. */
  lemma {:induction false} EncodeIsInjective(s: string, t: string)
    requires IsBytes(s) && IsBytes(t) && Encode(s) == Encode(t)
    ensures s == t
    decreases |s|
  {
    if s != "" && t != "" {
      SameFirst(s[0], t[0], Encode(s[1..]), Encode(t[1..]));
      EncodeIsInjective(s[1..], t[1..]);
    }
  }

  // ---------------------------------------------------------------------
  // The two loops

  lemma Associates(s: string, t: string, u: string)
    ensures (s + t) + u == s + (t + u)
  {
  }

  lemma EncodeNext(s: string, k: nat)
    requires k < |s|
    ensures Encode(s[k..]) == EncodeChar(s[k]) + Encode(s[k + 1..])
  {
    assert s[k..][1..] == s[k + 1..];
  }

  lemma EncodedOne(s: string, k: nat, coded: string, code: string)
    requires k < |s| && code == EncodeChar(s[k])
    ensures coded + Encode(s[k..]) == (coded + code) + Encode(s[k + 1..])
  {
    EncodeNext(s, k);
    Associates(coded, code, Encode(s[k + 1..]));
  }

  lemma {:induction false} EncodeRun(s: string, from: nat, next: nat)
    requires from <= next <= |s| && forall i :: from <= i < next ==> !IsBad(s[i])
    ensures Encode(s[from..]) == s[from..next] + Encode(s[next..])
    decreases next - from
  {
    var rest := Encode(s[next..]);
    if from < next {
      EncodeRun(s, from + 1, next);
      EncodeNext(s, from);
      Associates([s[from]], s[from + 1..next], rest);
      assert s[from..next] == [s[from]] + s[from + 1..next];
    } else {
      assert s[from..next] == "" && "" + rest == rest;
    }
  }

  /** find_if from `from` on. */
  method FindBad(sid: string, from: nat) returns (next: nat)
    requires from <= |sid|
    ensures from <= next <= |sid| && (next < |sid| ==> IsBad(sid[next]))
    ensures Encode(sid[from..]) == sid[from..next] + Encode(sid[next..])
  {
    next := from;
    while next < |sid| && !IsBad(sid[next])
      invariant from <= next <= |sid| && forall i :: from <= i < next ==> !IsBad(sid[i])
    {
      next := next + 1;
    }
    EncodeRun(sid, from, next);
  }

  method CodeFor(c: char) returns (code: string)
    requires IsBad(c)
    ensures code == EncodeChar(c)
  {
    var hex := HexInt(Unsigned(c));
    code := "_" + hex;
  }

  /** to_filename: the good characters up to the next bad one, then its code, until none is left. */
  method ToFilename(sid: string) returns (coded: string)
    ensures coded == Encode(sid)
  {
    coded := "";
    var last := 0;
    assert sid[0..] == sid;
    while true
      invariant 0 <= last <= |sid| && coded + Encode(sid[last..]) == Encode(sid)
      decreases |sid| - last
    {
      var next := FindBad(sid, last);
      Associates(coded, sid[last..next], Encode(sid[next..]));
      coded := coded + sid[last..next];
      if next == |sid| {
        assert coded + "" == coded;
        return;
      }
      var code := CodeFor(sid[next]);
      EncodedOne(sid, next, coded, code);
      coded := coded + code;
      last := next + 1;
    }
  }

  /** find from `from` on. */
  method FindUnderscore(f: string, from: nat) returns (next: nat)
    requires from <= |f|
    ensures from <= next <= |f| && (next < |f| ==> f[next] == '_')
    ensures Decode(f[from..]) == Appended(f[from..next], Decode(f[next..]))
  {
    next := from;
    while next < |f| && f[next] != '_'
      invariant from <= next <= |f| && forall i :: from <= i < next ==> f[i] != '_'
    {
      next := next + 1;
    }
    assert f[from..] == f[from..next] + f[next..];
    DecodeRun(f[from..next], f[next..]);
  }

  /** from_filename: None where the code of the last character is cut short. */
  method FromFilename(f: string) returns (decoded: Option<string>)
    ensures decoded == Decode(f)
  {
    var sofar, last := "", 0;
    assert f[0..] == f;
    AppendedTwice("", "", Decode(f));
    while true
      invariant 0 <= last <= |f| && Decode(f) == Appended(sofar, Decode(f[last..]))
      decreases |f| - last
    {
      var next := FindUnderscore(f, last);
      AppendedTwice(sofar, f[last..next], Decode(f[next..]));
      sofar := sofar + f[last..next];
      if next == |f| {
        assert sofar + "" == sofar;
        return Some(sofar);
      }
      if next + 3 > |f| {
        return None;
      }
      var c := ParseString(f[next + 1], f[next + 2]);
      assert f[next..] == "_" + [f[next + 1], f[next + 2]] + f[next + 3..];
      DecodeCode(f[next + 1], f[next + 2], f[next + 3..]);
      AppendedTwice(sofar, [c as char], Decode(f[next + 3..]));
      sofar := sofar + [c as char];
      last := next + 3;
    }
  }
}
