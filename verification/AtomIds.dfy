/** Atom ids of the text profile: `<complement of the rank>:<escaped actor>:<counter>`.
    The complement is written with a fixed width, so a later rank sorts first. */
module AtomIds {
  import opened Wrappers
  import opened Orders

  const MAX_SAFE: nat := 9007199254740991
  const COUNTER_WIDTH: nat := 16

  datatype ElementId = ElementId(actor: string, counter: int)

  datatype IdError = EmptyActor | BadCounter | BadInsertionOrder

  // ---- decimal numerals ---------------------------------------------------------

  function Digit(d: nat): char
    requires d < 10
  {
    "0123456789"[d]
  }

  predicate IsDigit(c: char) { '0' <= c <= '9' }

  predicate AllDigits(s: string) { forall i :: 0 <= i < |s| ==> IsDigit(s[i]) }

  function Decimal(n: nat): (s: string)
    ensures s != [] && AllDigits(s) && (s[0] == '0' ==> n == 0)
  {
    if n < 10 then [Digit(n)] else Decimal(n / 10) + [Digit(n % 10)]
  }

  function PadStart(s: string, width: nat): string
    decreases width - |s|
  {
    if |s| >= width then s else PadStart(['0'] + s, width)
  }

  function DigitValue(c: char): nat
    requires IsDigit(c)
  {
    c as int - '0' as int
  }

  /** The number a string of digits denotes. */
  function NumberOf(s: string): nat
    requires AllDigits(s)
  {
    if s == [] then 0 else 10 * NumberOf(s[..|s| - 1]) + DigitValue(s[|s| - 1])
  }

  lemma {:induction false} DecimalRoundTrip(n: nat)
    ensures NumberOf(Decimal(n)) == n
  {
    if n >= 10 {
      DecimalRoundTrip(n / 10);
      assert Decimal(n)[..|Decimal(n)| - 1] == Decimal(n / 10);
    }
  }

  function Pow10(w: nat): nat { if w == 0 then 1 else 10 * Pow10(w - 1) }

  /** The lowest `w` digits of `n`. */
  function Fixed(n: nat, w: nat): (s: string)
    ensures |s| == w && AllDigits(s)
  {
    if w == 0 then [] else Fixed(n / 10, w - 1) + [Digit(n % 10)]
  }

  lemma {:induction false} FixedZero(w: nat)
    ensures Fixed(0, w) == PadStart([], w)
    ensures PadStart(['0'], w + 1) == Fixed(0, w + 1)
  {
    if w > 0 {
      FixedZero(w - 1);
      PadAppend([], w - 1, '0');
      PadAppend([], w, '0');
      assert [] + ['0'] == ['0'] == ['0'] + [];
    }
  }

  lemma {:induction false} PadAppend(s: string, w: nat, c: char)
    ensures PadStart(s + [c], w + 1) == PadStart(s, w) + [c]
    decreases w - |s|
  {
    if |s| < w {
      assert ['0'] + (s + [c]) == (['0'] + s) + [c];
      PadAppend(['0'] + s, w, c);
    }
  }

  /** Padding a numeral with zeros writes it with a fixed width. */
  lemma {:induction false} PaddedIsFixed(n: nat, w: nat)
    requires 0 < w && n < Pow10(w)
    ensures PadStart(Decimal(n), w) == Fixed(n, w)
  {
    if n < 10 {
      FixedZero(w - 1);
      PadAppend([], w - 1, Digit(n));
      assert [] + [Digit(n)] == [Digit(n)];
    } else {
      assert w > 1;
      PaddedIsFixed(n / 10, w - 1);
      PadAppend(Decimal(n / 10), w - 1, Digit(n % 10));
    }
  }

  lemma {:induction false} FixedOrder(a: nat, b: nat, w: nat)
    requires a < b < Pow10(w)
    ensures StringLess(Fixed(a, w), Fixed(b, w))
  {
    var p, q := Fixed(a / 10, w - 1), Fixed(b / 10, w - 1);
    if a / 10 == b / 10 {
      assert a % 10 < b % 10;
      assert LexAt([Digit(a % 10)], [Digit(b % 10)], 0, CharLess);
      LexCommonPrefix(p, [Digit(a % 10)], [Digit(b % 10)], CharLess);
    } else {
      FixedOrder(a / 10, b / 10, w - 1);
      LexDecided(p, [Digit(a % 10)], q, [Digit(b % 10)]);
    }
  }

  lemma SameLengthNotPrefix(p: string, q: string)
    requires |p| == |q| && StringLess(p, q)
    ensures !(p <= q)
  {
    StringLessTotal();
  }

  // ---- ids ------------------------------------------------------------------------

  predicate LineTerminator(c: char) { c == '\n' || c == '\r' || c == '\U{2028}' || c == '\U{2029}' }

  /** What the ids need of `encodeURIComponent` and `decodeURIComponent`: decoding inverts
      encoding, and encodings contain neither a colon nor a line terminator. */
  ghost predicate UriCodec(encode: string -> string, decode: string -> Option<string>) {
    && (forall a :: decode(encode(a)) == Some(a))
    && (forall a, i :: 0 <= i < |encode(a)| ==> encode(a)[i] != ':' && !LineTerminator(encode(a)[i]))
  }

  predicate PositiveSafe(n: int) { 0 < n <= MAX_SAFE }

  function Compose(rank: string, actor: string, counter: nat): string {
    rank + ":" + actor + ":" + Decimal(counter)
  }

  function RankText(order: int): string
    requires PositiveSafe(order)
  {
    PadStart(Decimal(MAX_SAFE - order), COUNTER_WIDTH)
  }

  function TextAtomId(encode: string -> string, id: ElementId, order: int): Result<string, IdError> {
    if id.actor == [] then Err(EmptyActor)
    else if !PositiveSafe(id.counter) then Err(BadCounter)
    else if !PositiveSafe(order) then Err(BadInsertionOrder)
    else Ok(Compose(RankText(order), encode(id.actor), id.counter))
  }

  /** The index of the last colon, if any. */
  function LastColon(s: string): (k: int)
    ensures -1 <= k < |s|
    ensures k >= 0 ==> s[k] == ':'
    ensures forall i :: k < i < |s| ==> s[i] != ':'
  {
    if s == [] then -1
    else if s[|s| - 1] == ':' then |s| - 1
    else LastColon(s[..|s| - 1])
  }

  predicate OneLine(s: string) { forall i :: 0 <= i < |s| ==> !LineTerminator(s[i]) }

  /** The counter after the last colon at `k`, when it is a positive safe integer. */
  function TrailingCounter(s: string, k: nat): Option<nat>
    requires k < |s|
  {
    var digits := s[k + 1..];
    if digits != [] && AllDigits(digits) && PositiveSafe(NumberOf(digits)) then Some(NumberOf(digits)) else None
  }

  /** The pattern `^(\d{16}):(.*):(\d+)$` with its counter and actor checks. */
  function ParseRanked(decode: string -> Option<string>, s: string): Option<ElementId> {
    var k := LastColon(s);
    if 16 < k && AllDigits(s[..16]) && s[16] == ':' && OneLine(s[17..k]) && TrailingCounter(s, k).Some?
       && decode(s[17..k]).Some?
    then Some(ElementId(decode(s[17..k]).value, TrailingCounter(s, k).value))
    else None
  }

  /** The pattern `^(.*):(\d{16}):(\d+)$` of ids persisted before ranks were introduced. */
  function ParseLegacy(decode: string -> Option<string>, s: string): Option<ElementId> {
    var k := LastColon(s);
    if 16 < k && AllDigits(s[k - 16..k]) && s[k - 17] == ':' && OneLine(s[..k - 17]) && TrailingCounter(s, k).Some?
       && decode(s[..k - 17]).Some?
    then Some(ElementId(decode(s[..k - 17]).value, TrailingCounter(s, k).value))
    else None
  }

  function ParseTextAtomId(decode: string -> Option<string>, s: string, actor: string, counter: int): ElementId {
    match ParseRanked(decode, s)
    case Some(id) => id
    case None =>
      match ParseLegacy(decode, s)
      case Some(id) => id
      case None => ElementId(actor, if PositiveSafe(counter) then counter else 1)
  }

  lemma LastColonAt(s: string, k: nat)
    requires k < |s| && s[k] == ':' && forall i :: k < i < |s| ==> s[i] != ':'
    ensures LastColon(s) == k
  {
  }

  lemma RankWidth(order: int)
    requires PositiveSafe(order)
    ensures RankText(order) == Fixed(MAX_SAFE - order, COUNTER_WIDTH)
    ensures |RankText(order)| == 16 && AllDigits(RankText(order))
    ensures MAX_SAFE < Pow10(COUNTER_WIDTH)
  {
    assert Pow10(4) == 10_000;
    assert Pow10(8) == 100_000_000;
    assert Pow10(12) == 1_000_000_000_000;
    assert Pow10(16) == 10_000_000_000_000_000;
    PaddedIsFixed(MAX_SAFE - order, COUNTER_WIDTH);
  }

  /** Where the parts of an id lie: the rank, the actor and the counter, with no colon after the last. */
  lemma ComposedParts(rank: string, mid: string, digits: string, s: string)
    requires |rank| == 16 && AllDigits(digits) && s == rank + ":" + mid + ":" + digits
    ensures var k := 17 + |mid|;
            && k < |s| && s[16] == s[k] == ':' && s[..16] == rank && s[17..k] == mid && s[k + 1..] == digits
            && forall i :: k < i < |s| ==> s[i] != ':'
  {
    var k := 17 + |mid|;
    assert s == rank + (":" + (mid + (":" + digits)));
    forall i | k < i < |s| ensures s[i] != ':' { assert s[i] == digits[i - k - 1] && IsDigit(digits[i - k - 1]); }
  }

  /** An id is made exactly of a named actor and positive safe numbers: the rank counted down from the highest safe
      integer, in 16 digits, then the encoded actor, then the counter. */
  lemma AtomIdExactly(encode: string -> string, id: ElementId, order: int)
    ensures TextAtomId(encode, id, order).Ok?
            <==> id.actor != "" && 0 < id.counter <= 9_007_199_254_740_991 && 0 < order <= 9_007_199_254_740_991
    ensures TextAtomId(encode, id, order).Ok?
            ==> exists rank, digits ::
                  && TextAtomId(encode, id, order).value == rank + ":" + encode(id.actor) + ":" + digits
                  && |rank| == 16 && AllDigits(rank) && NumberOf(rank) == 9_007_199_254_740_991 - order
                  && digits != "" && AllDigits(digits) && NumberOf(digits) == id.counter && digits[0] != '0'
  {
    if TextAtomId(encode, id, order).Ok? {
      RankWidth(order);
      FixedNumber(MAX_SAFE - order, COUNTER_WIDTH);
      DecimalRoundTrip(id.counter);
      var rank, digits := RankText(order), Decimal(id.counter);
      assert TextAtomId(encode, id, order).value == rank + ":" + encode(id.actor) + ":" + digits;
    }
  }

  lemma {:induction false} FixedNumber(n: nat, w: nat)
    requires n < Pow10(w)
    ensures NumberOf(Fixed(n, w)) == n
  {
    if w > 0 {
      FixedNumber(n / 10, w - 1);
      assert Fixed(n, w)[..w - 1] == Fixed(n / 10, w - 1);
    }
  }

  /** Every id made by `TextAtomId` parses back to its actor and counter, whatever the fallback. */
  lemma AtomIdRoundTrip(encode: string -> string, decode: string -> Option<string>, id: ElementId, order: int,
                        actor: string, counter: int)
    requires UriCodec(encode, decode) && TextAtomId(encode, id, order).Ok?
    ensures ParseTextAtomId(decode, TextAtomId(encode, id, order).value, actor, counter) == id
  {
    RankWidth(order);
    var rank, mid, digits := RankText(order), encode(id.actor), Decimal(id.counter);
    var s := Compose(rank, mid, id.counter);
    ComposedParts(rank, mid, digits, s);
    LastColonAt(s, 17 + |mid|);
    DecimalRoundTrip(id.counter);
  }

  // ---- what an id parses to ----------------------------------------------------------

  /** A numeral that is read as a counter. */
  predicate CountsAs(digits: string, n: int) {
    digits != [] && AllDigits(digits) && NumberOf(digits) == n && 0 < n <= 9_007_199_254_740_991
  }

  /** `s` is a 16-digit rank, an encoded actor and a counter, with colons between. */
  ghost predicate RankedForm(decode: string -> Option<string>, s: string, id: ElementId) {
    exists rank, actor, digits :: RankedParts(decode, s, id, rank, actor, digits)
  }

  ghost predicate RankedParts(decode: string -> Option<string>, s: string, id: ElementId, rank: string, actor: string,
                              digits: string)
  {
    && s == rank + ":" + actor + ":" + digits && |rank| == 16 && AllDigits(rank) && OneLine(actor)
    && CountsAs(digits, id.counter) && decode(actor) == Some(id.actor)
  }

  /** `s` is an encoded actor, 16 digits and a counter, with colons between. */
  ghost predicate LegacyForm(decode: string -> Option<string>, s: string, id: ElementId) {
    exists actor, order, digits :: LegacyParts(decode, s, id, actor, order, digits)
  }

  ghost predicate LegacyParts(decode: string -> Option<string>, s: string, id: ElementId, actor: string, order: string,
                              digits: string)
  {
    && s == actor + ":" + order + ":" + digits && |order| == 16 && AllDigits(order) && OneLine(actor)
    && CountsAs(digits, id.counter) && decode(actor) == Some(id.actor)
  }

  lemma TrailingAt(s: string, front: string, digits: string)
    requires s == front + ":" + digits && AllDigits(digits)
    ensures LastColon(s) == |front| && s[|front| + 1..] == digits && s[..|front|] == front
  {
    forall i | |front| < i < |s| ensures s[i] != ':' { assert IsDigit(digits[i - |front| - 1]); }
    LastColonAt(s, |front|);
  }

  lemma RankedOnly(decode: string -> Option<string>, s: string, id: ElementId)
    requires RankedForm(decode, s, id)
    ensures ParseRanked(decode, s) == Some(id)
  {
    var rank, actor, digits :| RankedParts(decode, s, id, rank, actor, digits);
    TrailingAt(s, rank + ":" + actor, digits);
    ComposedParts(rank, actor, digits, s);
  }

  lemma LegacyOnly(decode: string -> Option<string>, s: string, id: ElementId)
    requires LegacyForm(decode, s, id)
    ensures ParseLegacy(decode, s) == Some(id)
  {
    var actor, order, digits :| LegacyParts(decode, s, id, actor, order, digits);
    var front := actor + ":" + order;
    TrailingAt(s, front, digits);
    var k := |front|;
    assert s[k - 16..k] == front[k - 16..] == order;
    assert s[..k - 17] == front[..k - 17] == actor;
  }

  lemma RankedFits(decode: string -> Option<string>, s: string)
    requires ParseRanked(decode, s).Some?
    ensures RankedForm(decode, s, ParseRanked(decode, s).value)
  {
    var k := LastColon(s);
    var rank, actor, digits := s[..16], s[17..k], s[k + 1..];
    assert s == rank + ":" + actor + ":" + digits;
    assert RankedParts(decode, s, ParseRanked(decode, s).value, rank, actor, digits);
  }

  lemma LegacyFits(decode: string -> Option<string>, s: string)
    requires ParseLegacy(decode, s).Some?
    ensures LegacyForm(decode, s, ParseLegacy(decode, s).value)
  {
    var k := LastColon(s);
    var actor, order, digits := s[..k - 17], s[k - 16..k], s[k + 1..];
    assert s == actor + ":" + order + ":" + digits;
    assert LegacyParts(decode, s, ParseLegacy(decode, s).value, actor, order, digits);
  }

  /** What any atom id parses to: what it says when it is of the ranked form; otherwise what it says when it is of
      the older one; otherwise the operation's origin and sequence, or 1 where that is no counter. */
  lemma ParsesExactly(decode: string -> Option<string>, s: string, actor: string, counter: int)
    ensures var id := ParseTextAtomId(decode, s, actor, counter);
            || RankedForm(decode, s, id)
            || ((forall other :: !RankedForm(decode, s, other)) && LegacyForm(decode, s, id))
            || ((forall other :: !RankedForm(decode, s, other) && !LegacyForm(decode, s, other))
                && id.actor == actor && id.counter == if 0 < counter <= 9_007_199_254_740_991 then counter else 1)
  {
    forall other ensures RankedForm(decode, s, other) ==> ParseRanked(decode, s) == Some(other) {
      if RankedForm(decode, s, other) { RankedOnly(decode, s, other); }
    }
    forall other ensures LegacyForm(decode, s, other) ==> ParseLegacy(decode, s) == Some(other) {
      if LegacyForm(decode, s, other) { LegacyOnly(decode, s, other); }
    }
    if ParseRanked(decode, s).Some? {
      RankedFits(decode, s);
    } else if ParseLegacy(decode, s).Some? {
      LegacyFits(decode, s);
    }
  }

  /** Both forms say one thing at most. */
  lemma FormsUnique(decode: string -> Option<string>, s: string, a: ElementId, b: ElementId)
    requires (RankedForm(decode, s, a) && RankedForm(decode, s, b))
             || (LegacyForm(decode, s, a) && LegacyForm(decode, s, b))
    ensures a == b
  {
    if RankedForm(decode, s, a) && RankedForm(decode, s, b) {
      RankedOnly(decode, s, a);
      RankedOnly(decode, s, b);
    } else {
      LegacyOnly(decode, s, a);
      LegacyOnly(decode, s, b);
    }
  }

  lemma LexDecided(p: string, u: string, q: string, v: string)
    requires |p| == |q| && StringLess(p, q)
    ensures StringLess(p + u, q + v)
  {
    SameLengthNotPrefix(p, q);
    LexExtendLeft(p, q, u, CharLess);
    LexExtendRight(p + u, q, v, CharLess);
  }

  /** Ids sort strictly against their ranks, over the whole safe-integer range. */
  lemma RankOrder(encode: string -> string, a: ElementId, i: int, b: ElementId, j: int)
    requires TextAtomId(encode, a, i).Ok? && TextAtomId(encode, b, j).Ok? && j < i
    ensures StringLess(TextAtomId(encode, a, i).value, TextAtomId(encode, b, j).value)
  {
    RankWidth(i);
    RankWidth(j);
    FixedOrder(MAX_SAFE - i, MAX_SAFE - j, COUNTER_WIDTH);
    var p, q := RankText(i), RankText(j);
    var u, v := ":" + encode(a.actor) + ":" + Decimal(a.counter), ":" + encode(b.actor) + ":" + Decimal(b.counter);
    LexDecided(p, u, q, v);
    ComposeSplits(p, encode(a.actor), a.counter);
    ComposeSplits(q, encode(b.actor), b.counter);
  }

  lemma ComposeSplits(rank: string, actor: string, counter: nat)
    ensures Compose(rank, actor, counter) == rank + (":" + actor + ":" + Decimal(counter))
  {
  }

  /** String order of ids with different ranks is exactly the reverse of rank order. */
  lemma RankOrderExact(encode: string -> string, a: ElementId, i: int, b: ElementId, j: int)
    requires TextAtomId(encode, a, i).Ok? && TextAtomId(encode, b, j).Ok? && i != j
    ensures StringLess(TextAtomId(encode, a, i).value, TextAtomId(encode, b, j).value) <==> j < i
  {
    StringLessTotal();
    if j < i { RankOrder(encode, a, i, b, j); } else { RankOrder(encode, b, j, a, i); }
  }

  /** Distinct (rank, actor, counter) triples give distinct ids. */
  lemma AtomIdsInjective(encode: string -> string, decode: string -> Option<string>, a: ElementId, i: int,
                         b: ElementId, j: int)
    requires UriCodec(encode, decode) && TextAtomId(encode, a, i).Ok? && TextAtomId(encode, b, j).Ok?
    requires TextAtomId(encode, a, i) == TextAtomId(encode, b, j)
    ensures a == b && i == j
  {
    AtomIdRoundTrip(encode, decode, a, i, "", 0);
    AtomIdRoundTrip(encode, decode, b, j, "", 0);
    if i != j {
      RankOrderExact(encode, a, i, b, j);
      RankOrderExact(encode, b, j, a, i);
    }
  }

  /** A number as `${n}` writes it. */
  function Numeral(n: int): string {
    if n < 0 then "-" + Decimal(-n) else Decimal(n)
  }

  /** The key under which a selection looks an element up. */
  function ElementKey(id: ElementId): string {
    id.actor + ['\0'] + Numeral(id.counter)
  }

  predicate Unseparated(x: string) {
    forall i :: 0 <= i < |x| ==> x[i] != '\0'
  }

  lemma NumeralUnseparated(n: int)
    ensures Unseparated(Numeral(n))
  {
    var digits := Decimal(if n < 0 then -n else n);
    forall i | 0 <= i < |Numeral(n)| ensures Numeral(n)[i] != '\0' {
      assert forall k :: 0 <= k < |digits| ==> IsDigit(digits[k]);
    }
  }

  lemma NumeralInjective(m: int, n: int)
    requires Numeral(m) == Numeral(n)
    ensures m == n
  {
    var x, y := Decimal(if m < 0 then -m else m), Decimal(if n < 0 then -n else n);
    assert IsDigit(x[0]) && IsDigit(y[0]);
    assert Numeral(m)[0] == if m < 0 then '-' else x[0];
    assert Numeral(n)[0] == if n < 0 then '-' else y[0];
    assert x == if m < 0 then Numeral(m)[1..] else Numeral(m);
    assert y == if n < 0 then Numeral(n)[1..] else Numeral(n);
    DecimalRoundTrip(if m < 0 then -m else m);
    DecimalRoundTrip(if n < 0 then -n else n);
  }

  lemma NoneAfter(a: string, x: string)
    requires Unseparated(x)
    ensures var s := a + ['\0'] + x; s[|a|] == '\0' && forall k :: |a| < k < |s| ==> s[k] != '\0'
  {
    var s := a + ['\0'] + x;
    forall k | |a| < k < |s| ensures s[k] != '\0' { assert s[k] == x[k - |a| - 1]; }
  }

  lemma KeySplit(a: string, x: string, b: string, y: string)
    requires Unseparated(x) && Unseparated(y) && a + ['\0'] + x == b + ['\0'] + y
    ensures a == b && x == y
  {
    var s := a + ['\0'] + x;
    NoneAfter(a, x);
    NoneAfter(b, y);
    assert |a| == |b|;
    assert a == s[..|a|] && b == s[..|b|] && x == s[|a| + 1..] && y == s[|b| + 1..];
  }

  /** Keys identify elements even when an actor contains the separator. */
  lemma ElementKeyInjective(a: ElementId, b: ElementId)
    requires ElementKey(a) == ElementKey(b)
    ensures a == b
  {
    NumeralUnseparated(a.counter);
    NumeralUnseparated(b.counter);
    KeySplit(a.actor, Numeral(a.counter), b.actor, Numeral(b.counter));
    NumeralInjective(a.counter, b.counter);
  }
}
