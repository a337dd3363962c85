/** The customer labels of the analysis: the order-count segment, the binary
    one-time / repeat type, the three-digit RFM score and the qualitative RFM
    segment. */
module Segments {
  import opened Records

  // ---------------------------------------------------------------------------
  // Order-count segment

  datatype Segment = OneTime | TwoTime | Occasional | Regular | Loyal

  function SegmentLabel(s: Segment): string {
    match s
    case OneTime => "One-Time Buyer"
    case TwoTime => "Two-Time Buyer"
    case Occasional => "Occasional Buyer (3-5 orders)"
    case Regular => "Regular Buyer (6-10 orders)"
    case Loyal => "Loyal Customer (10+ orders)"
  }

  /** The segment of a customer's order count, by the first threshold that
      admits it. A count of 10 is Regular, whatever the Loyal label says, and
      counts below 1 (which a customer row never has) fall to Occasional. */
  function ClassifyCustomer(orderCount: int): (s: Segment)
    ensures s == OneTime <==> orderCount == 1
    ensures s == TwoTime <==> orderCount == 2
    ensures s == Occasional <==> orderCount <= 5 && orderCount != 1 && orderCount != 2
    ensures s == Regular <==> 6 <= orderCount <= 10
    ensures s == Loyal <==> orderCount >= 11
  {
    if orderCount == 1 then OneTime
    else if orderCount == 2 then TwoTime
    else if orderCount <= 5 then Occasional
    else if orderCount <= 10 then Regular
    else Loyal
  }

  /** The position of a segment in order-count order. */
  function SegmentLevel(s: Segment): int {
    match s
    case OneTime => 1
    case TwoTime => 2
    case Occasional => 3
    case Regular => 4
    case Loyal => 5
  }

  /** More orders never move a customer to a lower segment. */
  lemma ClassifyMonotone(c1: int, c2: int)
    requires 1 <= c1 <= c2
    ensures SegmentLevel(ClassifyCustomer(c1)) <= SegmentLevel(ClassifyCustomer(c2))
  {
  }

  /** Different segments carry different labels. */
  lemma SegmentLabelsDistinct(s1: Segment, s2: Segment)
    requires s1 != s2
    ensures SegmentLabel(s1) != SegmentLabel(s2)
  {
    assert SegmentLabel(s1)[0] != SegmentLabel(s2)[0] || SegmentLabel(s1)[1] != SegmentLabel(s2)[1];
  }

  // ---------------------------------------------------------------------------
  // One-time or repeat

  datatype CustomerType = OneTimeBuyer | RepeatBuyer

  function TypeLabel(t: CustomerType): string {
    match t
    case OneTimeBuyer => "One-Time Buyer"
    case RepeatBuyer => "Repeat Buyer"
  }

  function CustomerTypeOf(orderCount: int): (t: CustomerType)
    ensures t == OneTimeBuyer <==> orderCount == 1
  {
    if orderCount == 1 then OneTimeBuyer else RepeatBuyer
  }

  /** The binary type and the segment agree: a customer is a one-time buyer
      exactly when its segment is One-Time, under the same label. */
  lemma TypeAgreesWithSegment(orderCount: int)
    ensures CustomerTypeOf(orderCount) == OneTimeBuyer <==> ClassifyCustomer(orderCount) == OneTime
    ensures CustomerTypeOf(orderCount) == OneTimeBuyer ==>
              TypeLabel(CustomerTypeOf(orderCount)) == SegmentLabel(ClassifyCustomer(orderCount))
  {
  }

  // ---------------------------------------------------------------------------
  // RFM score and segment

  /** The character of a score 1..5. */
  function ScoreDigit(s: int): (c: char)
    requires 1 <= s <= 5
    ensures '1' <= c <= '5'
    ensures c as int - '0' as int == s
  {
    (s + '0' as int) as char
  }

  /** The score a digit character stands for. */
  function DigitScore(c: char): (r: Option<int>)
    ensures r.Some? <==> '1' <= c <= '5'
    ensures r.Some? ==> 1 <= r.value <= 5 && ScoreDigit(r.value) == c
  {
    if '1' <= c <= '5' then Some(c as int - '0' as int) else None
  }

  /** R, F and M written one after another as digits. */
  function RfmScore(r: int, f: int, m: int): (str: string)
    requires 1 <= r <= 5 && 1 <= f <= 5 && 1 <= m <= 5
    ensures |str| == 3
    ensures forall i :: 0 <= i < 3 ==> '1' <= str[i] <= '5'
  {
    [ScoreDigit(r), ScoreDigit(f), ScoreDigit(m)]
  }

  /** Reads an RFM score string back into its three scores. */
  function ParseRfmScore(str: string): (p: Option<(int, int, int)>)
    ensures p.Some? <==> |str| == 3 && forall i :: 0 <= i < 3 ==> '1' <= str[i] <= '5'
  {
    if |str| != 3 then None
    else
      match (DigitScore(str[0]), DigitScore(str[1]), DigitScore(str[2]))
      case (Some(r), Some(f), Some(m)) => Some((r, f, m))
      case _ => None
  }

  /** The score string loses nothing: it reads back as the same three scores,
      and every string that reads back is the score string of what it reads. */
  lemma RfmScoreRoundTrip(r: int, f: int, m: int)
    requires 1 <= r <= 5 && 1 <= f <= 5 && 1 <= m <= 5
    ensures ParseRfmScore(RfmScore(r, f, m)) == Some((r, f, m))
  {
  }

  lemma ParseRfmScoreInverse(str: string)
    requires ParseRfmScore(str).Some?
    ensures var p := ParseRfmScore(str).value;
            1 <= p.0 <= 5 && 1 <= p.1 <= 5 && 1 <= p.2 <= 5 && RfmScore(p.0, p.1, p.2) == str
  {
  }

  datatype RfmSegment = Champions | LoyalCustomers | PotentialLoyalists | AtRisk | Lost

  function RfmSegmentLabel(s: RfmSegment): string {
    match s
    case Champions => "Champions"
    case LoyalCustomers => "Loyal Customers"
    case PotentialLoyalists => "Potential Loyalists"
    case AtRisk => "At Risk"
    case Lost => "Lost"
  }

  /** The qualitative segment: the first rule that matches wins, so frequency
      and money outrank recency. */
  function CategorizeRfm(r: int, f: int, m: int): (s: RfmSegment)
    ensures s == Champions <==> f >= 4 && m >= 4
    ensures s == LoyalCustomers <==> !(f >= 4 && m >= 4) && f >= 3 && m >= 3
    ensures s == PotentialLoyalists <==> !(f >= 3 && m >= 3) && r >= 4
    ensures s == AtRisk <==> !(f >= 3 && m >= 3) && r == 3
    ensures s == Lost <==> !(f >= 3 && m >= 3) && r <= 2
  {
    if f >= 4 && m >= 4 then Champions
    else if f >= 3 && m >= 3 then LoyalCustomers
    else if r >= 4 then PotentialLoyalists
    else if r >= 3 then AtRisk
    else Lost
  }

  /** The position of an RFM segment, worst first. */
  function RecencyLevel(s: RfmSegment): int {
    match s
    case Lost => 0
    case AtRisk => 1
    case PotentialLoyalists => 2
    case LoyalCustomers => 3
    case Champions => 4
  }

  /** Recency decides only among customers whose frequency and money are not
      both at least 3: with those fixed, a better recency never gives a worse
      segment. */
  lemma CategorizeRecencyMonotone(r1: int, r2: int, f: int, m: int)
    requires r1 <= r2
    ensures RecencyLevel(CategorizeRfm(r1, f, m)) <= RecencyLevel(CategorizeRfm(r2, f, m))
    ensures f >= 3 && m >= 3 ==> CategorizeRfm(r1, f, m) == CategorizeRfm(r2, f, m)
  {
  }
}
