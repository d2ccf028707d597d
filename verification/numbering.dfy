/** Sequential document numbers such as `JC000001` (job cards) and `R000001`
    (rentals): the next number is derived from the last issued one by reading the
    digits after the prefix with Python's `int` and re-rendering the successor
    with the `06d` format. */
module Numbering {
  import opened Common

  /** Python's `f'{n:06d}'`: zero padding to six characters, the sign included. */
  function Format06(n: int): string
  {
    if n < 0 then "-" + PaddedDecimal(-n, 5) else PaddedDecimal(n, 6)
  }

  /** At least six characters: digits for n >= 0, a minus sign first otherwise. */
  lemma Format06Shape(n: int)
    ensures |Format06(n)| >= 6
    ensures n >= 0 ==> AllDigits(Format06(n))
    ensures n < 0 ==> Format06(n)[0] == '-'
  {
    if n >= 0 {
      PaddedDecimalValue(n, 6);
    }
  }

  /** The number that follows `last` (None when no document exists yet). */
  function NextNumber(prefix: string, last: Option<string>): string
  {
    if last.Some? && |prefix| <= |last.value| && last.value[..|prefix|] == prefix then
      Successor(prefix, ParseInt(last.value[|prefix|..]))
    else
      prefix + "000001"
  }

  /** The number after one whose digits read as `parsed` (None: unreadable).
      The f-string sits inside the same `try` as `int()`, so a successor too
      long to render also falls back to the first number. */
  function Successor(prefix: string, parsed: Option<int>): string
  {
    match parsed
    case Some(n) => if Printable(n + 1) then prefix + Format06(n + 1) else prefix + "000001"
    case None => prefix + "000001"
  }

  /** The number a form proposes: for a new record whose initial number is
      empty, the successor of the last issued one (by text order, the
      greatest); otherwise the initial value as it is. */
  function ProposedNumber(prefix: string, isNew: bool, initial: string, last: Option<string>): string
  {
    if isNew && initial == "" then NextNumber(prefix, last) else initial
  }

  /** Every issued number starts with the prefix, followed by at least six
      characters. */
  lemma NextNumberShape(prefix: string, last: Option<string>)
    ensures |NextNumber(prefix, last)| >= |prefix| + 6 && NextNumber(prefix, last)[..|prefix|] == prefix
  {
    var r := NextNumber(prefix, last);
    if last.Some? && |prefix| <= |last.value| && last.value[..|prefix|] == prefix && ParseInt(last.value[|prefix|..]).Some? {
      var n := ParseInt(last.value[|prefix|..]).value;
      Format06Shape(n + 1);
      PrefixedParts(prefix, Format06(n + 1));
    } else {
      PrefixedParts(prefix, "000001");
    }
  }

  /** A new record without a number is offered a fresh number with the prefix;
      any other form keeps its initial value. */
  lemma ProposedNumberCases(prefix: string, isNew: bool, initial: string, last: Option<string>)
    ensures isNew && initial == "" ==>
      var r := ProposedNumber(prefix, isNew, initial, last);
      r == NextNumber(prefix, last) && |r| >= |prefix| + 6 && r[..|prefix|] == prefix
    ensures !(isNew && initial == "") ==> ProposedNumber(prefix, isNew, initial, last) == initial
  {
    NextNumberShape(prefix, last);
  }

  lemma FirstIsOne()
    ensures Format06(1) == "000001"
  {
    assert NatToString(1) == "1";
    assert Zeros(5) == "00000";
  }

  /** A well-formed last number `prefix` + n yields `prefix` + (n + 1), as long
      as `int()` accepts its digits and n + 1 can be rendered; past either
      digit cap Python raises and the sequence restarts at 1. */
  lemma NextAfter(prefix: string, n: nat)
    ensures NextNumber(prefix, Some(prefix + Format06(n))) ==
      if |Format06(n)| <= MaxStrDigits && Printable(n + 1) then prefix + Format06(n + 1) else prefix + Format06(1)
  {
    var last := prefix + Format06(n);
    PrefixedParts(prefix, Format06(n));
    ParsePaddedDecimal(n, 6);
    if |Format06(n)| <= MaxStrDigits {
      NextOfParsed(prefix, last, n);
    } else {
      RestartAtOne(prefix, Some(last));
    }
  }

  /** A last number whose digits `int()` still reads but whose successor has
      one digit more than the cap (4300 nines: PowerBoundary with k = 4300)
      makes the f-string raise, and the sequence restarts at 1. */
  lemma RenderCapRestarts(prefix: string, n: nat)
    requires |NatToString(n)| <= MaxStrDigits < |NatToString(n + 1)|
    ensures NextNumber(prefix, Some(prefix + Format06(n))) == prefix + Format06(1)
  {
    PrefixedParts(prefix, Format06(n));
    ParsePaddedDecimal(n, 6);
    assert NextNumber(prefix, Some(prefix + Format06(n))) == Successor(prefix, Some(n));
    FirstIsOne();
  }

  lemma PrefixedParts(prefix: string, rest: string)
    ensures |prefix| <= |prefix + rest|
    ensures (prefix + rest)[..|prefix|] == prefix && (prefix + rest)[|prefix|..] == rest
  {
  }

  /** The successor of a last number whose digits after the prefix read as n. */
  lemma NextOfParsed(prefix: string, last: string, n: int)
    requires |prefix| <= |last| && last[..|prefix|] == prefix && ParseInt(last[|prefix|..]) == Some(n)
    ensures NextNumber(prefix, Some(last)) == if Printable(n + 1) then prefix + Format06(n + 1) else prefix + Format06(1)
  {
    assert NextNumber(prefix, Some(last)) == Successor(prefix, Some(n));
    FirstIsOne();
  }

  /** No previous number, a foreign prefix, or digits Python cannot parse all
      restart the sequence at 1. */
  lemma RestartAtOne(prefix: string, last: Option<string>)
    requires || last.None?
             || !(|prefix| <= |last.value| && last.value[..|prefix|] == prefix)
             || ParseInt(last.value[|prefix|..]).None?
    ensures NextNumber(prefix, last) == prefix + Format06(1)
  {
    FirstIsOne();
  }

  /** Below one million the successor keeps exactly six digits. */
  lemma SixDigits(n: nat)
    requires n < 1000000
    ensures |Format06(n)| == 6 && AllDigits(Format06(n))
    ensures Printable(n)
  {
    Format06Shape(n);
    Pow10Table();
    PaddedDecimalWidth(n, 6);
    NatToStringShort(n, 6);
  }
}
