/**
 The names of backup files (src/agent/shared/backup.cpp): zero-padded local times that sort as text.

 `FileName` is the name of a time, as the widths of `swprintf` make it, and `Less` the order of path
 names by character.  A padded field that fits has exactly its width, so names compare field by field: by
 year, month, day, hour, minute and second.  That ends with the year 10000, whose field is one digit longer
 than the others.
 */
module BackupNames {
  import opened Decimal

  /** A local calendar time. */
  datatype Stamp = Stamp(year: nat, month: nat, day: nat, hour: nat, minute: nat, second: nat) {
    /** What `struct tm` holds, for years of at most four digits. */
    predicate Valid() {
      year < 10000 && 1 <= month <= 12 && 1 <= day <= 31 && hour < 24 && minute < 60 && second <= 60
    }
  }

  predicate Earlier(a: Stamp, b: Stamp) {
    if a.year != b.year then a.year < b.year
    else if a.month != b.month then a.month < b.month
    else if a.day != b.day then a.day < b.day
    else if a.hour != b.hour then a.hour < b.hour
    else if a.minute != b.minute then a.minute < b.minute
    else a.second < b.second
  }

  /** "%0<w>d": zeros in front, up to `w` characters; a longer number stays as it is. */
  function Padded(digits: string, w: nat): string
    decreases w - |digits|
  {
    if |digits| >= w then digits else Padded("0" + digits, w)
  }

  function Field(n: nat, w: nat): string { Padded(Digits(n), w) }

  function FileName(t: Stamp): string {
    "backup_" + (Field(t.year, 4) + (Field(t.month, 2) + (Field(t.day, 2) + ("_" +
      (Field(t.hour, 2) + (Field(t.minute, 2) + (Field(t.second, 2) + ".json")))))))
  }

  /** The order of path names: by character, a prefix first. */
  predicate Less(a: string, b: string) {
    if b == "" then false
    else if a == "" then true
    else if a[0] != b[0] then a[0] < b[0]
    else Less(a[1..], b[1..])
  }

  lemma {:induction false} LessIsOrder(a: string, b: string)
    ensures a == b ==> !Less(a, b)
    ensures a != b ==> (Less(a, b) <==> !Less(b, a))
  {
    if a != "" && b != "" && a[0] == b[0] {
      LessIsOrder(a[1..], b[1..]);
      assert a == [a[0]] + a[1..] && b == [b[0]] + b[1..];
    }
  }

  lemma {:induction false} LessTransitive(a: string, b: string, c: string)
    requires Less(a, b) && Less(b, c)
    ensures Less(a, c)
  {
    if a != "" && a[0] == b[0] == c[0] { LessTransitive(a[1..], b[1..], c[1..]); }
  }

  /** Texts whose heads are equally long compare by head first. */
  lemma {:induction false} LessByHead(a: string, x: string, b: string, y: string)
    requires |a| == |b|
    ensures Less(a + x, b + y) <==> Less(a, b) || (a == b && Less(x, y))
  {
    if a == "" {
      assert a + x == x && b + y == y;
    } else {
      assert (a + x)[1..] == a[1..] + x && (b + y)[1..] == b[1..] + y;
      if a[0] == b[0] {
        LessByHead(a[1..], x, b[1..], y);
        assert a == [a[0]] + a[1..] && b == [b[0]] + b[1..];
      }
    }
  }

  // ---------------------------------------------------------------------------------------------
  // Fields of fixed width
  // ---------------------------------------------------------------------------------------------

  function Pow10(w: nat): nat { if w == 0 then 1 else 10 * Pow10(w - 1) }

  /** Exactly `w` digits, last digit last. */
  function Fixed(n: nat, w: nat): (s: string)
    ensures |s| == w
  {
    if w == 0 then "" else Fixed(n / 10, w - 1) + [DigitChar(n % 10)]
  }

  lemma {:induction false} FixedZero(w: nat)
    ensures w > 0 ==> Fixed(0, w) == "0" + Fixed(0, w - 1)
  {
    if w > 1 { FixedZero(w - 1); }
  }

  lemma {:induction false} PaddedLast(s: string, d: char, w: nat)
    requires |s| <= w
    ensures Padded(s + [d], w + 1) == Padded(s, w) + [d]
    decreases w - |s|
  {
    if |s| < w {
      assert "0" + (s + [d]) == ("0" + s) + [d];
      PaddedLast("0" + s, d, w);
    }
  }

  lemma {:induction false} PaddedZeros(w: nat, k: nat)
    requires k <= w
    ensures Padded(Fixed(0, k), w) == Fixed(0, w)
    decreases w - k
  {
    if k < w {
      FixedZero(k + 1);
      PaddedZeros(w, k + 1);
    }
  }

  /** A number that fits is printed with exactly `w` digits. */
  lemma {:induction false} FieldIsFixed(n: nat, w: nat)
    requires w > 0 && n < Pow10(w)
    ensures Field(n, w) == Fixed(n, w) && |Digits(n)| <= w
  {
    var d := DigitChar(n % 10);
    if n < 10 {
      assert Digits(n) == "" + [d];
      PaddedLast("", d, w - 1);
      PaddedZeros(w - 1, 0);
    } else {
      assert w > 1;
      FieldIsFixed(n / 10, w - 1);
      PaddedLast(Digits(n / 10), d, w - 1);
    }
  }

  /** Fixed-width numbers sort as numbers. */
  lemma {:induction false} FixedSorts(n: nat, m: nat, w: nat)
    requires n < Pow10(w) && m < Pow10(w)
    ensures Less(Fixed(n, w), Fixed(m, w)) <==> n < m
    ensures Fixed(n, w) == Fixed(m, w) <==> n == m
  {
    if w > 0 {
      FixedSorts(n / 10, m / 10, w - 1);
      LessByHead(Fixed(n / 10, w - 1), [DigitChar(n % 10)], Fixed(m / 10, w - 1), [DigitChar(m % 10)]);
      assert n == n / 10 * 10 + n % 10 && m == m / 10 * 10 + m % 10;
      HeadsDiffer(Fixed(n / 10, w - 1), DigitChar(n % 10), Fixed(m / 10, w - 1), DigitChar(m % 10));
    }
  }

  lemma HeadsDiffer(a: string, c: char, b: string, d: char)
    requires |a| == |b|
    ensures a + [c] == b + [d] <==> a == b && c == d
  {
    if a + [c] == b + [d] {
      assert (a + [c])[..|a|] == a && (b + [d])[..|b|] == b;
      assert (a + [c])[|a|] == c && (b + [d])[|b|] == d;
    }
  }

  /** Two fields compare first, then what follows. */
  lemma FieldsSort(n: nat, m: nat, w: nat, x: string, y: string)
    requires w > 0 && n < Pow10(w) && m < Pow10(w)
    ensures Less(Field(n, w) + x, Field(m, w) + y) <==> n < m || (n == m && Less(x, y))
  {
    FieldIsFixed(n, w);
    FieldIsFixed(m, w);
    FixedSorts(n, m, w);
    LessByHead(Field(n, w), x, Field(m, w), y);
  }

  lemma SameHead(a: string, x: string, y: string)
    ensures Less(a + x, a + y) <==> Less(x, y)
  {
    LessByHead(a, x, a, y);
    LessIsOrder(a, a);
  }

  /** With years of at most four digits, names sort exactly as the times they are made of. */
  lemma NamesSortAsTimes(a: Stamp, b: Stamp)
    requires a.Valid() && b.Valid()
    ensures Less(FileName(a), FileName(b)) <==> Earlier(a, b)
  {
    assert Pow10(2) == 100 && Pow10(4) == 10000 by { assert Pow10(1) == 10 && Pow10(3) == 1000; }
    var e := ".json";
    var s, s' := Field(a.second, 2) + e, Field(b.second, 2) + e;
    var m, m' := Field(a.minute, 2) + s, Field(b.minute, 2) + s';
    var h, h' := Field(a.hour, 2) + m, Field(b.hour, 2) + m';
    var d, d' := Field(a.day, 2) + ("_" + h), Field(b.day, 2) + ("_" + h');
    var o, o' := Field(a.month, 2) + d, Field(b.month, 2) + d';
    var y, y' := Field(a.year, 4) + o, Field(b.year, 4) + o';
    LessIsOrder(e, e);
    FieldsSort(a.second, b.second, 2, e, e);
    FieldsSort(a.minute, b.minute, 2, s, s');
    FieldsSort(a.hour, b.hour, 2, m, m');
    SameHead("_", h, h');
    FieldsSort(a.day, b.day, 2, "_" + h, "_" + h');
    FieldsSort(a.month, b.month, 2, d, d');
    FieldsSort(a.year, b.year, 4, o, o');
    SameHead("backup_", y, y');
  }

  /** Different times have different names. */
  lemma NamesDiffer(a: Stamp, b: Stamp)
    requires a.Valid() && b.Valid()
    ensures FileName(a) == FileName(b) <==> a == b
  {
    NamesSortAsTimes(a, b);
    NamesSortAsTimes(b, a);
    LessIsOrder(FileName(a), FileName(b));
  }

  lemma SmallerHead(a: string, b: string, x: string, y: string)
    requires a != "" && b != "" && a[0] < b[0]
    ensures Less(a + x, b + y)
  {
    assert (a + x)[0] == a[0] && (b + y)[0] == b[0];
  }

  /** The bound on the year is sharp: the first name of the year 10000 sorts before the last one of 9999. */
  lemma FiveDigitYearsSortWrong()
    ensures var a, b := Stamp(9999, 12, 31, 23, 59, 59), Stamp(10000, 1, 1, 0, 0, 0);
            Earlier(a, b) && Less(FileName(b), FileName(a))
  {
    var a, b := Stamp(9999, 12, 31, 23, 59, 59), Stamp(10000, 1, 1, 0, 0, 0);
    var x :| FileName(a) == "backup_" + (Field(9999, 4) + x);
    var y :| FileName(b) == "backup_" + (Field(10000, 4) + y);
    SmallerHead(Field(10000, 4), Field(9999, 4), y, x);
    SameHead("backup_", Field(10000, 4) + y, Field(9999, 4) + x);
  }

  lemma FieldsOfATime()
    ensures Field(1, 2) == "01" && Field(2, 2) == "02" && Field(3, 2) == "03"
    ensures Field(4, 2) == "04" && Field(5, 2) == "05"
  {
  }

  lemma YearOfATime()
    ensures Field(2024, 4) == "2024"
  {
    assert Digits(2024) == "2024";
  }

  lemma NameOfFields(t: Stamp, y: string, o: string, d: string, h: string, m: string, s: string)
    requires y == Field(t.year, 4) && o == Field(t.month, 2) && d == Field(t.day, 2)
    requires h == Field(t.hour, 2) && m == Field(t.minute, 2) && s == Field(t.second, 2)
    ensures FileName(t) == "backup_" + (y + (o + (d + ("_" + (h + (m + (s + ".json")))))))
  {
  }

  /** A name, character by character. */
  lemma NameOfATime()
    ensures FileName(Stamp(2024, 1, 2, 3, 4, 5)) == "backup_20240102_030405.json"
  {
    FieldsOfATime();
    YearOfATime();
    NameOfFields(Stamp(2024, 1, 2, 3, 4, 5), "2024", "01", "02", "03", "04", "05");
  }
}
