/** GET /blocks: which requests are refused, and which blocks the others get. */
module GetBlocks {
  import opened Records
  import opened Blocks
  import opened JsonText
  import opened Activity
  import Timestamps

  predicate InDigits(t: string) {
    forall i :: 0 <= i < |t| ==> '0' <= t[i] <= '9'
  }

  /** A text of digits read from its most significant one. */
  function Positional(t: string): nat
    requires InDigits(t)
  {
    if t == "" then 0 else (t[0] as nat - '0' as nat) * Timestamps.Power10(|t| - 1) + Positional(t[1..])
  }

  /** What the API takes as a block index. */
  predicate IsIndex(t: string) {
    t != "" && InDigits(t) && Positional(t) < 0x1_0000_0000_0000_0000
  }

  lemma {:induction false} PositionalSnoc(t: string)
    requires t != "" && InDigits(t)
    ensures Positional(t) == Positional(t[..|t| - 1]) * 10 + (Last(t) as nat - '0' as nat)
  {
    var n := |t| - 1;
    if n > 0 {
      PositionalSnoc(t[1..]);
      assert t[1..][..n - 1] == t[..n][1..] && Last(t[1..]) == Last(t);
      OnePlaceUp(t[0] as nat - '0' as nat, n - 1, Positional(t[..n][1..]));
    } else {
      assert t[1..] == "" && t[..0] == "" && Timestamps.Power10(0) == 1;
    }
  }

  lemma OnePlaceUp(d: nat, n: nat, rest: nat)
    ensures (d * Timestamps.Power10(n) + rest) * 10 == d * Timestamps.Power10(n + 1) + rest * 10
  {
    var p := Timestamps.Power10(n);
    assert Timestamps.Power10(n + 1) == 10 * p;
    assert d * (10 * p) == d * p * 10;
  }

  lemma {:induction false} PositionalIsValue(t: string)
    requires InDigits(t)
    ensures DecimalValue(t) == Positional(t)
    decreases |t|
  {
    if t != "" {
      PositionalSnoc(t);
      PositionalIsValue(t[..|t| - 1]);
    }
  }

  /** A range parameter is taken exactly if it is absent or such a text. */
  lemma ParameterIsIndex(value: Option<string>, fallback: u64)
    ensures ParseIndex(value, fallback)
         == match value
            case None => Some(fallback)
            case Some(t) => if IsIndex(t) then Some(Positional(t)) else None
  {
    hide DecimalValue, Positional;
    if value.Some? && InDigits(value.value) {
      PositionalIsValue(value.value);
    }
  }

  predicate Refusable(value: Option<string>) {
    value.Some? && !IsIndex(value.value)
  }

  /** The first block asked for: the chain's first, if none is named. */
  function Lower(from: Option<string>): nat
    requires !Refusable(from)
  {
    if from.None? then 0 else Positional(from.value)
  }

  /** The last block to be had: no further than the chain goes. */
  function Upper(to: Option<string>, length: nat): nat
    requires !Refusable(to) && length > 0
  {
    if to.None? || Positional(to.value) >= length then length - 1 else Positional(to.value)
  }

  /** For all parameters, well-formed or not: the answer is a 400 exactly if one of them is no index or the
      range is empty; otherwise it is every block of the range in order, both ends included, with the
      length of the whole chain. */
  lemma RangeIsServed(chain: seq<Block>, from: Option<string>, to: Option<string>)
    requires 0 < |chain| < U64
    ensures var r := ServeRange(chain, from, to);
      if Refusable(from) || Refusable(to) || Lower(from) > Upper(to, |chain|) then r == BadRequest
      else
        && r.Blocks? && r.chainLength == Some(|chain|)
        && |r.blocks| == Upper(to, |chain|) - Lower(from) + 1
        && forall k :: 0 <= k < |r.blocks| ==> r.blocks[k] == chain[Lower(from) + k]
  {
    hide ParseIndex, IsIndex, Positional;
    ParameterIsIndex(from, 0);
    ParameterIsIndex(to, U64 - 1);
    assert IsIndexSmall(from) && IsIndexSmall(to) by { IndicesAreSmall(from); IndicesAreSmall(to); }
  }

  predicate IsIndexSmall(value: Option<string>) {
    !Refusable(value) && value.Some? ==> Positional(value.value) < U64
  }

  lemma IndicesAreSmall(value: Option<string>)
    ensures IsIndexSmall(value)
  {
  }

  lemma DecimalSays(n: nat)
    ensures InDigits(Decimal(n)) && Decimal(n) != "" && Positional(Decimal(n)) == n
  {
    hide Decimal, DecimalValue, LeadingDigits, Positional;
    DecimalDigits(n);
    DecimalRoundTrip(n);
    PositionalIsValue(Decimal(n));
  }

  lemma DecimalIsIndex(n: u64)
    ensures IsIndex(Decimal(n)) && Positional(Decimal(n)) == n
  {
    hide Decimal, Positional;
    DecimalSays(n);
  }

  /** Asked with numbers: blocks f to t, or to the end of a shorter chain. */
  lemma NumbersAreServed(chain: seq<Block>, f: u64, t: u64)
    requires 0 < |chain| < U64
    ensures
      var r := ServeRange(chain, Some(Decimal(f)), Some(Decimal(t)));
      var last := if t < |chain| then t else |chain| - 1;
      && (r == BadRequest <==> f > last)
      && (f <= last ==> r == Blocks(chain[f..last + 1], Some(|chain|)))
  {
    hide ServeRange, Decimal, IsIndex, Positional;
    RangeIsServed(chain, Some(Decimal(f)), Some(Decimal(t)));
    DecimalIsIndex(f);
    DecimalIsIndex(t);
  }

  /** An absent parameter stands for the nearest end of the chain. */
  lemma AbsentMeansTheEnd(chain: seq<Block>, from: Option<string>, to: Option<string>)
    requires 0 < |chain| < U64
    ensures ServeRange(chain, None, to) == ServeRange(chain, Some("0"), to)
    ensures ServeRange(chain, from, None) == ServeRange(chain, from, Some(Decimal(|chain| - 1)))
  {
    hide Decimal, IsIndex, Positional, ParseIndex;
    DecimalDigits(0);
    DecimalIsIndex(0);
    DecimalIsIndex(|chain| - 1);
    ParameterIsIndex(Some("0"), 0);
    ParameterIsIndex(Some(Decimal(|chain| - 1)), U64 - 1);
    ParameterIsIndex(None, 0);
    ParameterIsIndex(None, U64 - 1);
    ParameterIsIndex(from, 0);
    ParameterIsIndex(to, U64 - 1);
  }
}
