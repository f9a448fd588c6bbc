/** Names of delivered requests: the delivery time in ISO form, padded to a fixed width, then the
    thread and the tag; sorting the names puts the requests in order of delivery. */
module Jobdir {
  import opened Common
  import opened Layout

  datatype Time = Time(
    year: nat, month: nat, day: nat, hour: nat, minute: nat, second: nat, fraction: nat)

  /** A time whose fields have room in their columns, with `f` digits for the fraction. */
  predicate IsTime(t: Time, f: nat) {
    && t.year < 10000 && t.month < 100 && t.day < 100
    && t.hour < 100 && t.minute < 100 && t.second < 100
    && t.fraction < Pow(10, f)
  }

  predicate Earlier(a: Time, b: Time) {
    if a.year != b.year then a.year < b.year
    else if a.month != b.month then a.month < b.month
    else if a.day != b.day then a.day < b.day
    else if a.hour != b.hour then a.hour < b.hour
    else if a.minute != b.minute then a.minute < b.minute
    else if a.second != b.second then a.second < b.second
    else a.fraction < b.fraction
  }

  // ---------------------------------------------------------------------
  // Names

  function Dec(n: nat, w: nat): (s: string)
    ensures |s| == w
  {
    Digits(n, 10, w)
  }

  function DateText(t: Time): (s: string)
    ensures |s| == 15
  {
    Dec(t.year, 4) + (Dec(t.month, 2) + (Dec(t.day, 2) + ("T" +
      (Dec(t.hour, 2) + (Dec(t.minute, 2) + Dec(t.second, 2))))))
  }

  /** to_iso_string leaves out a fraction of zero. */
  function IsoString(t: Time, f: nat): string {
    DateText(t) + if t.fraction == 0 then "" else "." + Dec(t.fraction, f)
  }

  function Suffix(id: string, tag: string): string {
    "_" + id + if tag == "" then "" else "_" + tag
  }

  /** The name a request delivered at that time should have. */
  function Name(t: Time, f: nat, id: string, tag: string): string {
    DateText(t) + ("." + (Dec(t.fraction, f) + Suffix(id, tag)))
  }

  /** The digits of the number stand in that column. */
  predicate IsColumn(name: string, at: nat, n: nat, w: nat) {
    at + w <= |name| && name[at..at + w] == Dec(n, w)
  }

  /** Date, 'T' and time of day in columns, then a dot and the fraction, then thread and tag. */
  predicate HasColumns(name: string, t: Time, f: nat, id: string, tag: string) {
    && |name| > 16 + f && name[8] == 'T' && name[15] == '.'
    && IsColumn(name, 0, t.year, 4) && IsColumn(name, 4, t.month, 2) && IsColumn(name, 6, t.day, 2)
    && IsColumn(name, 9, t.hour, 2) && IsColumn(name, 11, t.minute, 2) && IsColumn(name, 13, t.second, 2)
    && IsColumn(name, 16, t.fraction, f)
    && name[16 + f..] == if tag == "" then "_" + id else "_" + id + "_" + tag
  }

  lemma DateColumns(t: Time)
    ensures var d := DateText(t);
            && d[8] == 'T' && IsColumn(d, 0, t.year, 4) && IsColumn(d, 4, t.month, 2) && IsColumn(d, 6, t.day, 2)
            && IsColumn(d, 9, t.hour, 2) && IsColumn(d, 11, t.minute, 2) && IsColumn(d, 13, t.second, 2)
  {
  }

  lemma ColumnStays(d: string, rest: string, at: nat, n: nat, w: nat)
    requires IsColumn(d, at, n, w)
    ensures IsColumn(d + rest, at, n, w)
  {
    assert (d + rest)[at..at + w] == d[at..at + w];
  }

  lemma NameHasColumns(t: Time, f: nat, id: string, tag: string)
    ensures HasColumns(Name(t, f, id, tag), t, f, id, tag)
  {
    var d, rest := DateText(t), "." + (Dec(t.fraction, f) + Suffix(id, tag));
    DateColumns(t);
    ColumnStays(d, rest, 0, t.year, 4);
    ColumnStays(d, rest, 4, t.month, 2);
    ColumnStays(d, rest, 6, t.day, 2);
    ColumnStays(d, rest, 9, t.hour, 2);
    ColumnStays(d, rest, 11, t.minute, 2);
    ColumnStays(d, rest, 13, t.second, 2);
  }

  lemma {:induction false} ZeroIsZeros(w: nat)
    ensures Dec(0, w) == Zeros(w)
  {
    if w > 0 {
      ZeroIsZeros(w - 1);
    }
  }

  /** The naming part of deliver. */
  method FileName(t: Time, f: nat, id: string, tag: string) returns (name: string)
    requires f > 0
    ensures name == Name(t, f, id, tag)
  {
    name := IsoString(t, f);
    if |name| == 15 {
      ZeroIsZeros(f);
      name := name + ".";
      name := name + Zeros(f);
    }
    assert name == DateText(t) + "." + Dec(t.fraction, f);
    name := name + "_";
    name := name + id;
    if tag != "" {
      name := name + "_";
      name := name + tag;
    }
    assert name == DateText(t) + "." + Dec(t.fraction, f) + Suffix(id, tag);
  }

  // ---------------------------------------------------------------------
  // Order

  /** operator< on strings. */
  predicate LexLess(a: string, b: string)
    decreases |a|
  {
    b != "" && (a == "" || a[0] < b[0] || (a[0] == b[0] && LexLess(a[1..], b[1..])))
  }

  /** Of two strings that begin with as many characters, those decide unless they agree. */
  lemma {:induction false} LexConcat(p: string, q: string, x: string, y: string)
    requires |p| == |q|
    ensures LexLess(p + x, q + y) <==> LexLess(p, q) || (p == q && LexLess(x, y))
    decreases |p|
  {
    if p == "" {
      assert p + x == x && q + y == y;
    } else {
      LexConcat(p[1..], q[1..], x, y);
      assert (p + x)[1..] == p[1..] + x && (q + y)[1..] == q[1..] + y;
      assert p == [p[0]] + p[1..] && q == [q[0]] + q[1..];
    }
  }

  lemma DigitOrder(j: nat, k: nat)
    requires j < 10 && k < 10
    ensures DIGITS[j] < DIGITS[k] <==> j < k
    ensures LexLess([DIGITS[j]], [DIGITS[k]]) <==> j < k
    ensures DIGITS[j] == DIGITS[k] <==> j == k
  {
  }

  /** Columns of digits compare as the numbers do. */
  lemma {:induction false} DecOrder(m: nat, n: nat, w: nat)
    requires m < Pow(10, w) && n < Pow(10, w)
    ensures LexLess(Dec(m, w), Dec(n, w)) <==> m < n
    ensures Dec(m, w) == Dec(n, w) <==> m == n
    decreases w
  {
    if w > 0 {
      QuotientBelow(m, 10, Pow(10, w - 1));
      QuotientBelow(n, 10, Pow(10, w - 1));
      DecOrder(m / 10, n / 10, w - 1);
      DigitOrder(m % 10, n % 10);
      var x, y := [DIGITS[m % 10]], [DIGITS[n % 10]];
      LexConcat(Dec(m / 10, w - 1), Dec(n / 10, w - 1), x, y);
      assert Dec(m, w)[w - 1] == x[0] && Dec(n, w)[w - 1] == y[0];
      assert Dec(m, w)[..w - 1] == Dec(m / 10, w - 1) && Dec(n, w)[..w - 1] == Dec(n / 10, w - 1);
    }
  }

  /** A column in front decides, or what follows it does. */
  lemma Column(m: nat, n: nat, w: nat, x: string, y: string)
    requires m < Pow(10, w) && n < Pow(10, w)
    ensures LexLess(Dec(m, w) + x, Dec(n, w) + y) <==> m < n || (m == n && LexLess(x, y))
  {
    DecOrder(m, n, w);
    LexConcat(Dec(m, w), Dec(n, w), x, y);
  }

  predicate SameSecond(a: Time, b: Time) {
    a.(fraction := 0) == b.(fraction := 0)
  }

  lemma ClockOrder(a: Time, b: Time)
    requires a.hour < 100 && a.minute < 100 && a.second < 100 && b.hour < 100 && b.minute < 100 && b.second < 100
    ensures LexLess(Dec(a.hour, 2) + (Dec(a.minute, 2) + Dec(a.second, 2)),
                    Dec(b.hour, 2) + (Dec(b.minute, 2) + Dec(b.second, 2))) <==>
            a.hour < b.hour || (a.hour == b.hour &&
              (a.minute < b.minute || (a.minute == b.minute && a.second < b.second)))
  {
    Column(a.hour, b.hour, 2, Dec(a.minute, 2) + Dec(a.second, 2), Dec(b.minute, 2) + Dec(b.second, 2));
    Column(a.minute, b.minute, 2, Dec(a.second, 2), Dec(b.second, 2));
    DecOrder(a.second, b.second, 2);
  }

  lemma DateOrder(a: Time, b: Time, f: nat)
    requires IsTime(a, f) && IsTime(b, f)
    ensures LexLess(DateText(a), DateText(b)) <==> !SameSecond(a, b) && Earlier(a, b)
  {
    var ca := Dec(a.hour, 2) + (Dec(a.minute, 2) + Dec(a.second, 2));
    var cb := Dec(b.hour, 2) + (Dec(b.minute, 2) + Dec(b.second, 2));
    ClockOrder(a, b);
    LexConcat("T", "T", ca, cb);
    Column(a.day, b.day, 2, "T" + ca, "T" + cb);
    var da, db := Dec(a.day, 2) + ("T" + ca), Dec(b.day, 2) + ("T" + cb);
    Column(a.month, b.month, 2, da, db);
    Column(a.year, b.year, 4, Dec(a.month, 2) + da, Dec(b.month, 2) + db);
  }

  lemma SameColumns(m: nat, n: nat, w: nat, x: string, y: string)
    requires m < Pow(10, w) && n < Pow(10, w)
    ensures Dec(m, w) + x == Dec(n, w) + y <==> m == n && x == y
  {
    DecOrder(m, n, w);
    var s, t := Dec(m, w) + x, Dec(n, w) + y;
    if s == t {
      assert s[..w] == Dec(m, w) && t[..w] == Dec(n, w) && s[w..] == x && t[w..] == y;
    }
  }

  lemma SameDate(a: Time, b: Time, f: nat)
    requires IsTime(a, f) && IsTime(b, f)
    ensures DateText(a) == DateText(b) <==> SameSecond(a, b)
  {
    var ca := Dec(a.hour, 2) + (Dec(a.minute, 2) + Dec(a.second, 2));
    var cb := Dec(b.hour, 2) + (Dec(b.minute, 2) + Dec(b.second, 2));
    DecOrder(a.second, b.second, 2);
    SameColumns(a.minute, b.minute, 2, Dec(a.second, 2), Dec(b.second, 2));
    SameColumns(a.hour, b.hour, 2, Dec(a.minute, 2) + Dec(a.second, 2), Dec(b.minute, 2) + Dec(b.second, 2));
    assert ("T" + ca)[1..] == ca && ("T" + cb)[1..] == cb;
    SameColumns(a.day, b.day, 2, "T" + ca, "T" + cb);
    var da, db := Dec(a.day, 2) + ("T" + ca), Dec(b.day, 2) + ("T" + cb);
    SameColumns(a.month, b.month, 2, da, db);
    SameColumns(a.year, b.year, 4, Dec(a.month, 2) + da, Dec(b.month, 2) + db);
  }

  /**
    * For any two different delivery times, and whatever threads and tags, the names compare as the
    * times do.
    */
  lemma NamesAreInTimeOrder(a: Time, b: Time, f: nat, ida: string, taga: string, idb: string, tagb: string)
    requires IsTime(a, f) && IsTime(b, f) && a != b
    ensures LexLess(Name(a, f, ida, taga), Name(b, f, idb, tagb)) <==> Earlier(a, b)
  {
    var sa, sb := Suffix(ida, taga), Suffix(idb, tagb);
    var fa, fb := Dec(a.fraction, f) + sa, Dec(b.fraction, f) + sb;
    LexConcat(DateText(a), DateText(b), "." + fa, "." + fb);
    LexConcat(".", ".", fa, fb);
    Column(a.fraction, b.fraction, f, sa, sb);
    DateOrder(a, b, f);
    SameDate(a, b, f);
  }

  // ---------------------------------------------------------------------
  // Reading the directory

  datatype Request = Request(time: Time, id: string, tag: string)

  function NameOf(r: Request, f: nat): string {
    Name(r.time, f, r.id, r.tag)
  }

  /** What sort by leaf_less leaves: no name is less than one before it. */
  predicate SortedByName(rs: seq<Request>, f: nat) {
    forall i, j :: 0 <= i < j < |rs| ==> !LexLess(NameOf(rs[j], f), NameOf(rs[i], f))
  }

  /** new_entries: sorted by name, requests come in order of delivery. */
  lemma EntriesAreInTimeOrder(rs: seq<Request>, f: nat, i: nat, j: nat)
    requires SortedByName(rs, f) && i < j < |rs|
    requires IsTime(rs[i].time, f) && IsTime(rs[j].time, f)
    ensures rs[i].time == rs[j].time || Earlier(rs[i].time, rs[j].time)
  {
    var a, b := rs[i], rs[j];
    if a.time != b.time {
      NamesAreInTimeOrder(b.time, a.time, f, b.id, b.tag, a.id, a.tag);
    }
  }

  /** Without the padding a request on the full second would come after those later in it. */
  lemma PaddingIsNeeded(a: Time, b: Time, f: nat, ida: string, taga: string, idb: string, tagb: string)
    requires IsTime(a, f) && IsTime(b, f) && SameSecond(a, b) && a.fraction == 0 < b.fraction
    ensures Earlier(a, b)
    ensures LexLess(IsoString(b, f) + Suffix(idb, tagb), IsoString(a, f) + Suffix(ida, taga))
  {
    SameDate(a, b, f);
    var d := DateText(a);
    var x, y := "." + Dec(b.fraction, f) + Suffix(idb, tagb), Suffix(ida, taga);
    assert IsoString(b, f) + Suffix(idb, tagb) == d + x;
    assert IsoString(a, f) + Suffix(ida, taga) == d + y;
    assert x[0] == '.' && y[0] == '_';
    LexConcat(d, d, x, y);
  }
}
