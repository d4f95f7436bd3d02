/** The star-rating widget, without its rendering: which stars exist, which
    are filled, and what a click or a hover does. Ratings are JavaScript
    numbers, so the displayed rating is a real; star numbers are integers. */
module StarRating {
  import opened Wrappers

  /** The number of stars when the caller gives none. */
  const DefaultMaxRating := 5

  /** `Array.from({ length: maxRating }, (_, index) => index + 1)`: a
      non-positive length gives no stars. */
  function Stars(maxRating: int): (r: seq<int>)
    ensures |r| == if maxRating < 0 then 0 else maxRating
    ensures forall i :: 0 <= i < |r| ==> r[i] == i + 1
    decreases if maxRating < 0 then 0 else maxRating
  {
    if maxRating <= 0 then [] else Stars(maxRating - 1) + [maxRating]
  }

  /** The rating shown: the hovered star if there is one, else the given rating. */
  function DisplayRating(hover: Option<int>, rating: real): (d: real)
    ensures hover.Some? ==> d == hover.value as real
    ensures hover.None? ==> d == rating
  {
    match hover
    case Some(h) => h as real
    case None => rating
  }

  /** Star `k` is drawn filled when `k <= displayRating`. */
  predicate Filled(k: int, display: real) {
    k as real <= display
  }

  /** The filled flag of every star, in order. */
  function FillMask(maxRating: int, display: real): (r: seq<bool>)
    ensures |r| == |Stars(maxRating)|
    ensures forall i :: 0 <= i < |r| ==> (r[i] <==> Filled(i + 1, display))
    decreases if maxRating < 0 then 0 else maxRating
  {
    if maxRating <= 0 then [] else FillMask(maxRating - 1, display) + [Filled(maxRating, display)]
  }

  /** How many flags are set. */
  function CountTrue(bs: seq<bool>): nat
    decreases |bs|
  {
    if bs == [] then 0 else CountTrue(bs[..|bs| - 1]) + (if bs[|bs| - 1] then 1 else 0)
  }

  function Clamp(x: int, lo: int, hi: int): int {
    if x < lo then lo else if x > hi then hi else x
  }

  /** The filled stars form a prefix: a filled star has only filled stars
      before it. */
  lemma FilledPrefix(maxRating: int, display: real, i: int, j: int)
    requires 0 <= i < j < |FillMask(maxRating, display)|
    requires FillMask(maxRating, display)[j]
    ensures FillMask(maxRating, display)[i]
  {
  }

  /** Exactly as many stars are filled as the displayed rating rounded down,
      kept within zero and the number of stars. */
  lemma {:induction false} FilledCount(maxRating: int, display: real)
    ensures CountTrue(FillMask(maxRating, display))
         == Clamp(display.Floor, 0, if maxRating < 0 then 0 else maxRating)
    decreases if maxRating < 0 then 0 else maxRating
  {
    if maxRating > 0 {
      var m := FillMask(maxRating, display);
      var f := display.Floor;
      FilledCount(maxRating - 1, display);
      assert m == FillMask(maxRating - 1, display) + [Filled(maxRating, display)];
      assert m[..|m| - 1] == FillMask(maxRating - 1, display);
      assert CountTrue(m) == CountTrue(FillMask(maxRating - 1, display)) + (if Filled(maxRating, display) then 1 else 0);
      if maxRating <= f {
        assert Filled(maxRating, display) by {
          assert maxRating as real <= f as real <= display;
        }
      } else {
        assert !Filled(maxRating, display) by {
          assert display < f as real + 1.0 <= maxRating as real;
        }
      }
    }
  }

  /** What clicking star `k` emits through `onChange`: nothing unless the
      widget is editable and has a handler. */
  function Click(editable: bool, hasOnChange: bool, k: int): (r: Option<int>)
    ensures r.Some? <==> editable && hasOnChange
    ensures r.Some? ==> r.value == k
  {
    if editable && hasOnChange then Some(k) else None
  }

  /** The hover state after the mouse enters star `k`. */
  function Enter(editable: bool, hover: Option<int>, k: int): (r: Option<int>)
    ensures editable ==> r == Some(k)
    ensures !editable ==> r == hover
  {
    if editable then Some(k) else hover
  }

  /** The hover state after the mouse leaves a star. */
  function Leave(editable: bool, hover: Option<int>): (r: Option<int>)
    ensures editable ==> r.None?
    ensures !editable ==> r == hover
  {
    if editable then None else hover
  }

  /** Hovering is undone by leaving: on an editable widget, entering star `k`
      shows `k` whatever the rating, and leaving again shows the rating; a
      read-only widget's hover state never changes. */
  lemma HoverRoundTrip(editable: bool, hover: Option<int>, k: int, rating: real)
    ensures editable ==> DisplayRating(Enter(editable, hover, k), rating) == k as real
    ensures editable ==> DisplayRating(Leave(editable, Enter(editable, hover, k)), rating) == rating
    ensures !editable ==> Leave(editable, Enter(editable, hover, k)) == hover
  {
  }

  /** A click on any shown star emits a rating between one and the number of
      stars. */
  lemma ClickInRange(maxRating: int, i: int, editable: bool, hasOnChange: bool)
    requires 0 <= i < |Stars(maxRating)|
    ensures var r := Click(editable, hasOnChange, Stars(maxRating)[i]);
            r.Some? ==> 1 <= r.value <= maxRating
  {
  }
}
