/**
 * Exact, unit-tagged quantities (src/quantity.rs).
 *
 * A quantity is a rational magnitude with a unit. Magnitudes are Dafny reals, which are
 * exact rationals, so equality is equality of the reduced value: 2/4c equals 1/2c.
 * Tokens such as "250g" or "1/2c" are parsed the way RQuantity::new does it:
 * the anchored pattern \A(\d+)(/(\d+))?(\w+)\z is matched leftmost-first and greedily,
 * and the captured unit text must then be one of the six unit codes.
 */
module Quantity {
  import opened Results

  datatype QuantityUnit = Tablespoon | Teaspoon | Cup | Gram | Count | Pound

  /** The code a unit is displayed as. */
  function UnitCode(u: QuantityUnit): string {
    match u
    case Tablespoon => "T"
    case Teaspoon => "t"
    case Cup => "c"
    case Gram => "g"
    case Count => "ct"
    case Pound => "lb"
  }

  /** The unit named by a captured code, if the code is one of the six. */
  function UnitOfCode(code: string): (r: Option<QuantityUnit>)
    ensures forall u :: r == Some(u) <==> UnitCode(u) == code
  {
    if code == "t" then Some(Teaspoon)
    else if code == "T" then Some(Tablespoon)
    else if code == "ct" then Some(Count)
    else if code == "g" then Some(Gram)
    else if code == "lb" then Some(Pound)
    else if code == "c" then Some(Cup)
    else None
  }

  /** Parsing a unit's displayed code gives back that unit. */
  lemma UnitCodeRoundTrip(u: QuantityUnit)
    ensures UnitOfCode(UnitCode(u)) == Some(u)
  {
  }

  datatype RQuantity = RQuantity(unit: QuantityUnit, value: real)

  // ---------------------------------------------------------------------------
  // The token pattern
  // ---------------------------------------------------------------------------

  /** \d, restricted to ASCII digits. */
  predicate IsDigit(c: char) {
    '0' <= c <= '9'
  }

  /** \w, restricted to ASCII letters, digits and the underscore. */
  predicate IsWordChar(c: char) {
    IsDigit(c) || 'a' <= c <= 'z' || 'A' <= c <= 'Z' || c == '_'
  }

  predicate AllDigits(s: string) {
    forall i :: 0 <= i < |s| ==> IsDigit(s[i])
  }

  predicate AllWordChars(s: string) {
    forall i :: 0 <= i < |s| ==> IsWordChar(s[i])
  }

  /** The length of the longest run of digits at the start of s. */
  function DigitRun(s: string): (n: nat)
    ensures n <= |s|
    ensures forall i :: 0 <= i < n ==> IsDigit(s[i])
    ensures n < |s| ==> !IsDigit(s[n])
  {
    if s == [] || !IsDigit(s[0]) then 0 else 1 + DigitRun(s[1..])
  }

  /** The value of a string of decimal digits, as str::parse computes it. */
  function DecimalValue(s: string): nat
    requires AllDigits(s)
  {
    if s == [] then 0 else 10 * DecimalValue(s[..|s| - 1]) + (s[|s| - 1] as int - '0' as int)
  }

  /** The named groups of one match: num, the optional denom, and unit. */
  datatype Captures = Captures(num: string, denom: Option<string>, unit: string)

  /** Captures that the pattern could have produced: digit groups and a word-character unit. */
  predicate WellFormedCaptures(c: Captures) {
    && |c.num| > 0 && AllDigits(c.num)
    && (c.denom.Some? ==> |c.denom.value| > 0 && AllDigits(c.denom.value))
    && |c.unit| > 0 && AllWordChars(c.unit)
  }

  /** The text a match covers, put back together from its groups. */
  function Spell(c: Captures): string {
    c.num + (if c.denom.Some? then "/" + c.denom.value else "") + c.unit
  }

  /**
   * The single match of \A(\d+)(/(\d+))?(\w+)\z against s, with the groups a backtracking,
   * greedy matcher assigns: num and denom take as many digits as still allow the rest to
   * match, so a unit group starts with a digit only when the token ends in digits.
   */
  function Match(s: string): (r: Option<Captures>)
    ensures r.Some? ==> WellFormedCaptures(r.value) && Spell(r.value) == s
  {
    var k := DigitRun(s);
    if k == 0 then None
    else
      assert s == s[..k] + s[k..];
      if k < |s| && s[k] == '/' then MatchFraction(s[..k], s[k + 1..])
      else MatchWhole(s[..k], s[k..])
  }

  /** The rest of a match once num has taken the digits before a '/'. */
  function MatchFraction(num: string, after: string): (r: Option<Captures>)
    requires |num| > 0 && AllDigits(num)
    ensures r.Some? ==> WellFormedCaptures(r.value) && Spell(r.value) == num + "/" + after
  {
    var j := DigitRun(after);
    if j == 0 then None
    else if j < |after| && AllWordChars(after[j..]) then
      assert after == after[..j] + after[j..];
      Some(Captures(num, Some(after[..j]), after[j..]))
    else if j == |after| && j >= 2 then
      assert after == after[..j - 1] + after[j - 1..];
      Some(Captures(num, Some(after[..j - 1]), after[j - 1..]))
    else None
  }

  /**
   * The rest of a match when no '/' follows the leading digits; rest is what follows them.
   * When nothing follows, num gives its last digit back to the unit group.
   */
  function MatchWhole(num: string, rest: string): (r: Option<Captures>)
    requires |num| > 0 && AllDigits(num)
    ensures r.Some? ==> WellFormedCaptures(r.value) && Spell(r.value) == num + rest
  {
    if |rest| > 0 && AllWordChars(rest) then
      assert Spell(Captures(num, None, rest)) == num + "" + rest;
      Some(Captures(num, None, rest))
    else if |rest| == 0 && |num| >= 2 then
      var n, u := num[..|num| - 1], [num[|num| - 1]];
      assert num == n + u;
      assert Spell(Captures(n, None, u)) == n + "" + u;
      Some(Captures(n, None, u))
    else None
  }

  /** What captures_iter yields for the anchored pattern: no match or exactly one. */
  function CapturesIter(s: string): (r: seq<Captures>)
    ensures |r| <= 1
    ensures forall i :: 0 <= i < |r| ==> WellFormedCaptures(r[i])
  {
    match Match(s)
    case None => []
    case Some(c) => [c]
  }

  /** The rational num/denom of a match; a zero denominator has no value. */
  function CapturedValue(c: Captures): Option<real>
    requires WellFormedCaptures(c)
  {
    var d := if c.denom.Some? then DecimalValue(c.denom.value) else 1;
    if d == 0 then None else Some(DecimalValue(c.num) as real / d as real)
  }

  /** The quantity a token denotes, or None where RQuantity::new panics. */
  function Parse(token: string): Option<RQuantity> {
    match Match(token)
    case None => None
    case Some(c) =>
      match (CapturedValue(c), UnitOfCode(c.unit))
      case (Some(v), Some(u)) => Some(RQuantity(u, v))
      case _ => None
  }

  /**
   * RQuantity::new: scan the matches, keep the value and unit of the last one, and fail
   * when either is missing. A zero denominator fails inside the loop, where Rational32::new
   * would panic.
   */
  method New(token: string) returns (r: Option<RQuantity>)
    ensures r == Parse(token)
  {
    var value: Option<real> := None;
    var unit: Option<QuantityUnit> := None;
    var matches := CapturesIter(token);
    for i := 0 to |matches|
      invariant i == 0 ==> value == None && unit == None
      invariant 0 < i ==> value == CapturedValue(matches[i - 1]) && value.Some?
      invariant 0 < i ==> unit == UnitOfCode(matches[i - 1].unit)
    {
      var caps := matches[i];
      var num := DecimalValue(caps.num);
      var denom := if caps.denom.Some? then DecimalValue(caps.denom.value) else 1;
      if denom == 0 {
        return None;
      }
      value := Some(num as real / denom as real);
      unit := UnitOfCode(caps.unit);
    }
    if unit.None? || value.None? {
      return None;
    }
    return Some(RQuantity(unit.value, value.value));
  }

  // ---------------------------------------------------------------------------
  // What the parser accepts
  // ---------------------------------------------------------------------------

  /** A token spelled from its parts: digits, optionally '/' and digits, then a unit's code. */
  function TokenText(num: string, denom: Option<string>, u: QuantityUnit): string {
    Spell(Captures(num, denom, UnitCode(u)))
  }

  /** An absent denominator, or digits whose value is not zero. */
  predicate NonzeroDenominator(denom: Option<string>) {
    denom.Some? ==> |denom.value| > 0 && AllDigits(denom.value) && DecimalValue(denom.value) > 0
  }

  /**
   * The token grammar digits ('/' digits)? code, with code one of the six unit codes and
   * a denominator, when present, that is not zero.
   */
  ghost predicate IsQuantityToken(s: string) {
    exists num: string, denom: Option<string>, u: QuantityUnit ::
      |num| > 0 && AllDigits(num) && NonzeroDenominator(denom) && s == TokenText(num, denom, u)
  }

  lemma {:induction false} DigitRunOfConcat(a: string, t: string)
    requires AllDigits(a)
    requires t == [] || !IsDigit(t[0])
    ensures DigitRun(a + t) == |a|
  {
    if a != [] {
      assert (a + t)[1..] == a[1..] + t;
      DigitRunOfConcat(a[1..], t);
    }
  }

  /** Every unit code starts with a letter, so it never extends the digits before it. */
  lemma UnitCodeShape(u: QuantityUnit)
    ensures |UnitCode(u)| > 0 && AllWordChars(UnitCode(u)) && !IsDigit(UnitCode(u)[0])
    ensures !IsDigit(UnitCode(u)[|UnitCode(u)| - 1])
  {
  }

  /** The text of a match ends where its unit group ends. */
  lemma SpellEndsInUnit(c: Captures)
    requires |c.unit| > 0
    ensures |Spell(c)| > 0 && Spell(c)[|Spell(c)| - 1] == c.unit[|c.unit| - 1]
  {
    var prefix := c.num + (if c.denom.Some? then "/" + c.denom.value else "");
    assert Spell(c) == prefix + c.unit;
  }

  /** A spelled token whose unit text starts with a non-digit is matched with exactly its own groups. */
  lemma MatchSpelled(c: Captures)
    requires WellFormedCaptures(c) && !IsDigit(c.unit[0])
    ensures Match(Spell(c)) == Some(c)
  {
    var s := Spell(c);
    var k := |c.num|;
    match c.denom
    case None =>
      assert s == c.num + c.unit;
      DigitRunOfConcat(c.num, c.unit);
      assert s[..k] == c.num && s[k..] == c.unit;
    case Some(d) =>
      assert s == c.num + ("/" + (d + c.unit));
      DigitRunOfConcat(c.num, "/" + (d + c.unit));
      assert s[..k] == c.num && s[k] == '/' && s[k + 1..] == d + c.unit;
      DigitRunOfConcat(d, c.unit);
      assert (d + c.unit)[..|d|] == d && (d + c.unit)[|d|..] == c.unit;
  }

  /** A token without a denominator parses to its numerator over one, in the unit its code names. */
  lemma ParseWhole(num: string, u: QuantityUnit)
    requires |num| > 0 && AllDigits(num)
    ensures Parse(TokenText(num, None, u)) == Some(RQuantity(u, DecimalValue(num) as real))
  {
    var c := Captures(num, None, UnitCode(u));
    UnitCodeShape(u);
    UnitCodeRoundTrip(u);
    MatchSpelled(c);
    assert CapturedValue(c) == Some(DecimalValue(num) as real / 1.0);
  }

  /** A token n/d parses to the rational n/d; a zero denominator makes it fail. */
  lemma ParseFraction(num: string, denom: string, u: QuantityUnit)
    requires |num| > 0 && AllDigits(num) && |denom| > 0 && AllDigits(denom)
    ensures DecimalValue(denom) == 0 ==> Parse(TokenText(num, Some(denom), u)) == None
    ensures DecimalValue(denom) > 0 ==>
      Parse(TokenText(num, Some(denom), u)) == Some(RQuantity(u, DecimalValue(num) as real / DecimalValue(denom) as real))
  {
    UnitCodeShape(u);
    UnitCodeRoundTrip(u);
    MatchSpelled(Captures(num, Some(denom), UnitCode(u)));
  }

  /** The parser succeeds on exactly the tokens of the grammar. */
  lemma ParseSucceedsIff(s: string)
    ensures Parse(s).Some? <==> IsQuantityToken(s)
  {
    if Parse(s).Some? {
      var c := Match(s).value;
      var u := UnitOfCode(c.unit).value;
      assert UnitCode(u) == c.unit;
      assert s == TokenText(c.num, c.denom, u);
    }
    if IsQuantityToken(s) {
      var num: string, denom: Option<string>, u: QuantityUnit :|
        |num| > 0 && AllDigits(num) && NonzeroDenominator(denom) && s == TokenText(num, denom, u);
      if denom.Some? {
        ParseFraction(num, denom.value, u);
      } else {
        ParseWhole(num, u);
      }
    }
  }

  /** A token whose trailing code is not one of the six unit codes fails to parse. */
  lemma ParseRejectsUnknownCode(num: string, denom: Option<string>, code: string)
    requires |num| > 0 && AllDigits(num)
    requires denom.Some? ==> |denom.value| > 0 && AllDigits(denom.value)
    requires |code| > 0 && AllWordChars(code) && !IsDigit(code[0])
    requires forall u :: UnitCode(u) != code
    ensures Parse(Spell(Captures(num, denom, code))) == None
  {
    MatchSpelled(Captures(num, denom, code));
    assert UnitOfCode(code) == None;
  }

  /** A token that does not start with a digit (empty, signed, or with leading blanks) fails. */
  lemma ParseRejectsNoLeadingDigit(s: string)
    requires |s| == 0 || !IsDigit(s[0])
    ensures Parse(s) == None
  {
  }

  /** A token that parses ends in the last letter of its unit code, never in a digit. */
  lemma ParseEndsInCode(s: string)
    requires Parse(s).Some?
    ensures |s| > 0 && !IsDigit(s[|s| - 1])
  {
    var c := Match(s).value;
    var u := UnitOfCode(c.unit).value;
    assert c.unit == UnitCode(u);
    UnitCodeShape(u);
    SpellEndsInUnit(c);
  }

  /** Digits, or a fraction, with no unit code after them fail: the unit group can only take a digit. */
  lemma ParseRejectsMissingUnit(num: string, denom: Option<string>)
    requires |num| > 0 && AllDigits(num)
    requires denom.Some? ==> |denom.value| > 0 && AllDigits(denom.value)
    ensures Parse(num + (if denom.Some? then "/" + denom.value else "")) == None
  {
    var s := num + (if denom.Some? then "/" + denom.value else "");
    var tail := if denom.Some? then denom.value else num;
    assert s[|s| - 1] == tail[|tail| - 1];
    if Parse(s).Some? {
      ParseEndsInCode(s);
    }
  }

  // ---------------------------------------------------------------------------
  // Rendering
  // ---------------------------------------------------------------------------

  function DigitChar(d: nat): char
    requires d < 10
  {
    ('0' as int + d) as char
  }

  /** The decimal numeral of n, without leading zeros. */
  function Numeral(n: nat): (s: string)
    ensures |s| > 0 && AllDigits(s) && DecimalValue(s) == n
    ensures n > 0 ==> s[0] != '0'
  {
    if n < 10 then [DigitChar(n)]
    else
      var s := Numeral(n / 10) + [DigitChar(n % 10)];
      assert s[..|s| - 1] == Numeral(n / 10);
      s
  }

  /**
   * The text written for the fraction n/d, with n and d as given (not reduced): the numerator
   * alone when d is one, n/d otherwise, then the unit code. Display writes this text when n/d
   * is the value in lowest terms.
   */
  function Render(n: nat, d: nat, u: QuantityUnit): string {
    TokenText(Numeral(n), if d == 1 then None else Some(Numeral(d)), u)
  }

  /** Parsing a rendered quantity gives back its value and unit. */
  lemma RenderRoundTrip(n: nat, d: nat, u: QuantityUnit)
    requires d > 0
    ensures Parse(Render(n, d, u)) == Some(RQuantity(u, n as real / d as real))
  {
    if d == 1 {
      ParseWhole(Numeral(n), u);
    } else {
      ParseFraction(Numeral(n), Numeral(d), u);
    }
  }

  // ---------------------------------------------------------------------------
  // Arithmetic
  // ---------------------------------------------------------------------------

  /** `a + b`: the magnitudes are added and the left operand's unit is kept; units are not compared. */
  function Add(a: RQuantity, b: RQuantity): RQuantity {
    RQuantity(a.unit, a.value + b.value)
  }

  /** `a - b`: the magnitudes are subtracted and the left operand's unit is kept. */
  function Sub(a: RQuantity, b: RQuantity): RQuantity {
    RQuantity(a.unit, a.value - b.value)
  }

  predicate IsPositive(q: RQuantity) {
    q.value > 0.0
  }

  /** Subtracting what was added gives back the left operand, whatever the right operand's unit. */
  lemma SubUndoesAdd(a: RQuantity, b: RQuantity)
    ensures Sub(Add(a, b), b) == a
  {
  }

  /** Adding back what was subtracted gives back the left operand. */
  lemma AddUndoesSub(a: RQuantity, b: RQuantity)
    ensures Add(Sub(a, b), b) == a
  {
  }

  /**
   * Units are not compared: + and - give the magnitude sum or difference in the left operand's
   * unit, and the right operand's unit has no effect on the result.
   */
  lemma LeftUnitCarried(a: RQuantity, b: RQuantity, u: QuantityUnit)
    ensures Add(a, b).unit == a.unit && Add(a, b).value == a.value + b.value
    ensures Sub(a, b).unit == a.unit && Sub(a, b).value == a.value - b.value
    ensures Add(a, b) == Add(a, RQuantity(u, b.value))
    ensures Sub(a, b) == Sub(a, RQuantity(u, b.value))
  {
  }

  /** Mixing units is silent, and so + is not commutative: 1c + 1g is 2c while 1g + 1c is 2g. */
  lemma MixedUnitsFollowLeft()
    ensures Add(RQuantity(Cup, 1.0), RQuantity(Gram, 1.0)) == RQuantity(Cup, 2.0)
    ensures Add(RQuantity(Gram, 1.0), RQuantity(Cup, 1.0)) == RQuantity(Gram, 2.0)
  {
  }

  /** a - b is positive exactly when a's magnitude exceeds b's; a zero or negative difference is not. */
  lemma SubPositiveIff(a: RQuantity, b: RQuantity)
    ensures IsPositive(Sub(a, b)) <==> a.value > b.value
  {
  }
}
