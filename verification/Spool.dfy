/** Offline event spool: bounded eviction, zero-padded file names and the ordered drain. */
module Spool {
  import Lex
  import Text

  const MAX_SPOOL_FILES := 1_000
  const MAX_SPOOL_BYTES := 10 * 1024 * 1024
  const FIELD_WIDTH: nat := 20

  newtype byte = x: int | 0 <= x < 256
  type Dir = map<string, seq<byte>>

  // ---------------------------------------------------------------- file names

  /** What a frame's name is made of. */
  datatype Key = Key(occurredAt: nat, tieBreaker: nat, counter: nat, id: string)

  function Zeros(n: nat): string { seq(n, _ => '0') }

  /** Decimal digits, padded with zeros to at least `width` characters. */
  function PadTo(n: nat, width: nat): string {
    var digits := Text.Decimal(n);
    if |digits| >= width then digits else Zeros(width - |digits|) + digits
  }

  function Pad(n: nat): string { PadTo(n, FIELD_WIDTH) }

  function FrameName(k: Key): string {
    Pad(k.occurredAt) + ("-" + (Pad(k.tieBreaker) + ("-" + (Pad(k.counter) + ("-" + (k.id + ".frame"))))))
  }

  /** The name a frame has while it is being written. */
  function TempName(k: Key): string {
    Pad(k.occurredAt) + ("-" + (Pad(k.tieBreaker) + ("-" + (Pad(k.counter) + ("-" + (k.id + ".tmp"))))))
  }

  function Pow10(n: nat): (r: nat)
    ensures r > 0
  {
    if n == 0 then 1 else 10 * Pow10(n - 1)
  }

  function Digit(d: nat): char
    requires d < 10
  {
    ('0' as int + d) as char
  }

  /** The last `width` decimal digits of a number. */
  function Fixed(n: nat, width: nat): (r: string)
    ensures |r| == width
    decreases width
  {
    if width == 0 then "" else Fixed(n / 10, width - 1) + [Digit(n % 10)]
  }

  lemma {:induction false} FixedZero(width: nat)
    ensures Fixed(0, width) == Zeros(width)
  {
    if width > 0 {
      FixedZero(width - 1);
      assert Zeros(width) == Zeros(width - 1) + ['0'];
    }
  }

  lemma {:induction false} PadIsFixed(n: nat, width: nat)
    requires width >= 1 && n < Pow10(width)
    ensures |Text.Decimal(n)| <= width
    ensures Fixed(n, width) == Zeros(width - |Text.Decimal(n)|) + Text.Decimal(n)
    decreases width
  {
    if n < 10 {
      FixedZero(width - 1);
      assert n / 10 == 0 && n % 10 == n;
    } else {
      PadIsFixed(n / 10, width - 1);
    }
  }

  lemma ConsOrder(a: char, x: string, b: char, y: string)
    ensures Lex.Less([a] + x, [b] + y) <==> a < b || (a == b && Lex.Less(x, y))
  {
    assert ([a] + x)[1..] == x && ([b] + y)[1..] == y;
  }

  /** Fixed-width digits compare like the numbers they print. */
  lemma {:induction false} FixedOrder(a: nat, b: nat, width: nat, x: string, y: string)
    requires a < Pow10(width) && b < Pow10(width)
    ensures Lex.Less(Fixed(a, width) + x, Fixed(b, width) + y) <==> a < b || (a == b && Lex.Less(x, y))
    decreases width
  {
    if width == 0 {
      assert Fixed(a, 0) + x == x && Fixed(b, 0) + y == y;
    } else {
      var da, db := [Digit(a % 10)], [Digit(b % 10)];
      FixedOrder(a / 10, b / 10, width - 1, da + x, db + y);
      ConsOrder(da[0], x, db[0], y);
      assert Fixed(a, width) + x == Fixed(a / 10, width - 1) + (da + x);
      assert Fixed(b, width) + y == Fixed(b / 10, width - 1) + (db + y);
    }
  }

  predicate InRange(k: Key) {
    && k.occurredAt < Pow10(FIELD_WIDTH)
    && k.tieBreaker < Pow10(FIELD_WIDTH)
    && k.counter < Pow10(FIELD_WIDTH)
  }

  /** Event time first, then the tie breaker, then the counter, then the unique id. */
  predicate Earlier(a: Key, b: Key) {
    a.occurredAt < b.occurredAt || (a.occurredAt == b.occurredAt &&
    (a.tieBreaker < b.tieBreaker || (a.tieBreaker == b.tieBreaker &&
    (a.counter < b.counter || (a.counter == b.counter && Lex.Less(a.id + ".frame", b.id + ".frame"))))))
  }

  lemma PadToOrder(a: nat, b: nat, width: nat, x: string, y: string)
    requires width >= 1 && a < Pow10(width) && b < Pow10(width)
    ensures Lex.Less(PadTo(a, width) + ("-" + x), PadTo(b, width) + ("-" + y)) <==> a < b || (a == b && Lex.Less(x, y))
  {
    PadIsFixed(a, width);
    PadIsFixed(b, width);
    assert PadTo(a, width) == Fixed(a, width) && PadTo(b, width) == Fixed(b, width);
    FixedOrder(a, b, width, "-" + x, "-" + y);
    ConsOrder('-', x, '-', y);
  }

  lemma PadOrder(a: nat, b: nat, x: string, y: string)
    requires a < Pow10(FIELD_WIDTH) && b < Pow10(FIELD_WIDTH)
    ensures Lex.Less(Pad(a) + ("-" + x), Pad(b) + ("-" + y)) <==> a < b || (a == b && Lex.Less(x, y))
  {
    PadToOrder(a, b, FIELD_WIDTH, x, y);
  }

  /** Sorting names sorts by event time, tie breaker and counter as numbers. */
  lemma NameOrderIsNumeric(a: Key, b: Key)
    requires InRange(a) && InRange(b)
    ensures Lex.Less(FrameName(a), FrameName(b)) <==> Earlier(a, b)
  {
    var tailA, tailB := a.id + ".frame", b.id + ".frame";
    PadOrder(a.counter, b.counter, tailA, tailB);
    var midA, midB := Pad(a.counter) + ("-" + tailA), Pad(b.counter) + ("-" + tailB);
    PadOrder(a.tieBreaker, b.tieBreaker, midA, midB);
    PadOrder(a.occurredAt, b.occurredAt, Pad(a.tieBreaker) + ("-" + midA), Pad(b.tieBreaker) + ("-" + midB));
  }

  lemma {:induction false} PrefixOrder(p: string, x: string, y: string)
    ensures Lex.Less(p + x, p + y) <==> Lex.Less(x, y)
  {
    if p == "" {
      assert p + x == x && p + y == y;
    } else {
      PrefixOrder(p[1..], x, y);
      ConsOrder(p[0], p[1..] + x, p[0], p[1..] + y);
      assert p + x == [p[0]] + (p[1..] + x) && p + y == [p[0]] + (p[1..] + y);
    }
  }

  lemma {:induction false} RoundDecimal(d: nat, k: nat)
    requires 1 <= d < 10
    ensures Text.Decimal(d * Pow10(k)) == [Digit(d)] + Zeros(k)
  {
    if k > 0 {
      RoundDecimal(d, k - 1);
      Shifted(d, Pow10(k - 1));
      assert Zeros(k) == Zeros(k - 1) + ['0'];
    }
  }

  /** One more power of ten is one more decimal place. */
  lemma Shifted(d: nat, p: nat)
    requires d >= 1 && p >= 1
    ensures var n := d * (10 * p); n >= 10 && n / 10 == d * p && n % 10 == 0
  {
    var m := d * p;
    assert m >= 1;
    assert d * (10 * p) == 10 * m;
  }

  /** Past `width` digits the padding no longer lines names up: a later tie breaker sorts first. */
  lemma TooWideBreaksOrder()
    ensures var a := Key(0, 5 * Pow10(FIELD_WIDTH - 1), 0, ""); var b := Key(0, 1 * Pow10(FIELD_WIDTH), 0, "");
            InRange(a) && Earlier(a, b) && Lex.Less(FrameName(b), FrameName(a))
  {
    RoundDecimal(5, FIELD_WIDTH - 1);
    RoundDecimal(1, FIELD_WIDTH);
    var x := Pad(5 * Pow10(FIELD_WIDTH - 1)) + ("-" + (Pad(0) + ("-" + ("" + ".frame"))));
    var y := Pad(1 * Pow10(FIELD_WIDTH)) + ("-" + (Pad(0) + ("-" + ("" + ".frame"))));
    assert x[0] == Digit(5) && y[0] == Digit(1);
    assert Lex.Less(y, x);
    PrefixOrder("-", y, x);
    PrefixOrder(Pad(0), "-" + y, "-" + x);
  }
}
