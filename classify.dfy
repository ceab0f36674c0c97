/** The two colour classifications of the table view: absolute AFR buckets
    (getColorClass) and delta buckets (getDeltaColorClass). */
module Classify {

  /** The absolute AFR style classes, from richest to leanest. */
  datatype AfrBucket =
    | Under120      // afr-under-120
    | Afr120To125   // afr-120-125
    | Afr125To130   // afr-125-130
    | Afr130To135   // afr-130-135
    | Afr135To140   // afr-135-140
    | Afr140To145   // afr-140-145
    | Afr145To150   // afr-145-150

  /** Position of a bucket in the lean direction: 0 is richest. */
  function Rank(b: AfrBucket): (r: nat) {
    match b
    case Under120 => 0
    case Afr120To125 => 1
    case Afr125To130 => 2
    case Afr130To135 => 3
    case Afr135To140 => 4
    case Afr140To145 => 5
    case Afr145To150 => 6
  }

  /** The CSS class name the table cell receives. */
  function AfrClassName(b: AfrBucket): (name: string) {
    match b
    case Under120 => "afr-under-120"
    case Afr120To125 => "afr-120-125"
    case Afr125To130 => "afr-125-130"
    case Afr130To135 => "afr-130-135"
    case Afr135To140 => "afr-135-140"
    case Afr140To145 => "afr-140-145"
    case Afr145To150 => "afr-145-150"
  }

  /** The ascending lower bounds of the buckets above Under120. */
  const Thresholds: seq<real> := [12.0, 12.5, 13.0, 13.5, 14.0, 14.5]

  /** `v` lies in the half-open band of `b`: at or above the threshold just
      below the band, strictly below the next threshold. */
  predicate InBand(v: real, b: AfrBucket) {
    (Rank(b) == 0 || v >= Thresholds[Rank(b) - 1]) &&
    (Rank(b) == |Thresholds| || v < Thresholds[Rank(b)])
  }

  /** getColorClass: the bucket of the highest threshold `v` meets or exceeds. */
  function ColorClass(v: real): (b: AfrBucket)
    ensures InBand(v, b)
    ensures Rank(b) == 0 <==> v < 12.0
    ensures Rank(b) == 6 <==> v >= 14.5
  {
    if v >= 14.5 then Afr145To150
    else if v >= 14.0 then Afr140To145
    else if v >= 13.5 then Afr135To140
    else if v >= 13.0 then Afr130To135
    else if v >= 12.5 then Afr125To130
    else if v >= 12.0 then Afr120To125
    else Under120
  }

  /** The bands partition the reals: `v` lies in exactly one, the one ColorClass picks. */
  lemma ColorClassIsTheBand(v: real, b: AfrBucket)
    ensures InBand(v, b) <==> b == ColorClass(v)
  {
  }

  /** A leaner mixture never lands in a richer bucket. */
  lemma ColorClassMonotone(v: real, w: real)
    requires v <= w
    ensures Rank(ColorClass(v)) <= Rank(ColorClass(w))
  {
  }

  /** The boundary values belong to the bucket above them. */
  lemma ColorClassBoundaries()
    ensures ColorClass(11.99) == Under120
    ensures ColorClass(12.0) == Afr120To125
    ensures ColorClass(13.5) == Afr135To140
    ensures ColorClass(14.0) == Afr140To145
    ensures ColorClass(14.5) == Afr145To150
    ensures ColorClass(20.0) == Afr145To150
    ensures AfrClassName(ColorClass(14.0)) == "afr-140-145"
  {
  }

  /** The delta style classes of the compare table. */
  datatype DeltaBucket =
    | ZeroExact       // delta-zero-exact
    | NegativeLarge   // delta-negative-large
    | Negative        // delta-negative
    | Zero            // delta-zero
    | Positive        // delta-positive
    | PositiveLarge   // delta-positive-large

  function DeltaClassName(b: DeltaBucket): (name: string) {
    match b
    case ZeroExact => "delta-zero-exact"
    case NegativeLarge => "delta-negative-large"
    case Negative => "delta-negative"
    case Zero => "delta-zero"
    case Positive => "delta-positive"
    case PositiveLarge => "delta-positive-large"
  }

  /** getDeltaColorClass: exact zero apart, inclusive boundaries at 0.1 and 0.5
      on either side, everything else near zero. */
  function DeltaColorClass(d: real): (b: DeltaBucket)
    ensures b == ZeroExact <==> d == 0.0
    ensures b == NegativeLarge <==> d <= -0.5
    ensures b == Negative <==> -0.5 < d <= -0.1
    ensures b == Zero <==> d != 0.0 && -0.1 < d < 0.1
    ensures b == Positive <==> 0.1 <= d < 0.5
    ensures b == PositiveLarge <==> d >= 0.5
  {
    if d == 0.0 then ZeroExact
    else if d <= -0.5 then NegativeLarge
    else if d <= -0.1 then Negative
    else if d >= 0.5 then PositiveLarge
    else if d >= 0.1 then Positive
    else Zero
  }

  /** The bucket of the opposite sign; the two zero buckets are fixed. */
  function Mirror(b: DeltaBucket): (m: DeltaBucket) {
    match b
    case ZeroExact => ZeroExact
    case NegativeLarge => PositiveLarge
    case Negative => Positive
    case Zero => Zero
    case Positive => Negative
    case PositiveLarge => NegativeLarge
  }

  /** Negating a delta mirrors its bucket. */
  lemma DeltaSignSymmetric(d: real)
    ensures DeltaColorClass(-d) == Mirror(DeltaColorClass(d))
  {
  }

  /** The bucket of a delta is recovered by mirroring the bucket of its
      negation. */
  lemma DeltaFromNegation(d: real)
    ensures DeltaColorClass(d) == Mirror(DeltaColorClass(-d))
  {
  }

  lemma DeltaBoundaries()
    ensures DeltaColorClass(0.0) == ZeroExact
    ensures DeltaColorClass(0.5) == PositiveLarge
    ensures DeltaColorClass(0.1) == Positive
    ensures DeltaColorClass(0.05) == Zero
    ensures DeltaColorClass(-0.05) == Zero
    ensures DeltaColorClass(-0.1) == Negative
    ensures DeltaColorClass(-0.5) == NegativeLarge
    ensures DeltaClassName(DeltaColorClass(0.0)) == "delta-zero-exact"
  {
  }
}
