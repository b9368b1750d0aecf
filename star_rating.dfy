/** The reusable star widget (src/components/StarRating/StarRating.jsx): five
    stars valued 1..5, filled up to the hovered star or else up to the
    rating; hovering and clicking are ignored while the widget is read-only. */
module StarRating {
  import opened Wrappers
  import opened JsValue

  /** `typeof rating === 'number' && !isNaN(rating) ? rating : 0`. */
  function SanitizedRating(rating: Js): (r: int)
    ensures rating.Num? ==> r == rating.n
    ensures !rating.Num? ==> r == 0
  {
    match rating
    case Num(n) => n
    case _ => 0
  }

  /** `readOnly ? sanitizedRating : (hoverRating || sanitizedRating)`. */
  function ValueToCompare(readOnly: bool, hoverRating: int, sanitized: int): (v: int)
    ensures readOnly ==> v == sanitized
    ensures !readOnly && hoverRating != 0 ==> v == hoverRating
    ensures !readOnly && hoverRating == 0 ==> v == sanitized
  {
    if readOnly then sanitized else if hoverRating != 0 then hoverRating else sanitized
  }

  /** The fill flags of the stars valued `1 .. n` against `value`. */
  function Row(n: nat, value: int): (row: seq<bool>)
    ensures |row| == n
    ensures forall i :: 0 <= i < n ==> row[i] == (i + 1 <= value)
  {
    if n == 0 then [] else Row(n - 1, value) + [n <= value]
  }

  /** How many flags are set. */
  function CountFilled(row: seq<bool>): nat
  {
    if row == [] then 0 else CountFilled(row[..|row| - 1]) + (if row[|row| - 1] then 1 else 0)
  }

  /** `value` clamped to `0 .. n`. */
  function Clamp(value: int, n: nat): nat
  {
    if value <= 0 then 0 else if value >= n then n else value
  }

  /** Against `value`, exactly `value` of the stars `1 .. n` are filled,
      clamped to the row. */
  lemma {:induction false} RowCount(n: nat, value: int)
    ensures CountFilled(Row(n, value)) == Clamp(value, n)
  {
    if n > 0 {
      RowCount(n - 1, value);
      assert Row(n, value)[..n - 1] == Row(n - 1, value);
    }
  }

  /** The widget's own state: the hovered star (0 when none) and the
      `readOnly` property it was last rendered with. */
  class StarRatingWidget {
    var readOnly: bool
    var hoverRating: int

    /** Hover stays on a star of the row, and is cleared while read-only. */
    ghost predicate Valid()
      reads this
    {
      0 <= hoverRating <= 5 && (readOnly ==> hoverRating == 0)
    }

    /** Mounting runs the effect once: a read-only widget starts with no
        hover, and so does every other one. */
    constructor (readOnly: bool)
      ensures Valid() && this.readOnly == readOnly && hoverRating == 0
    {
      this.readOnly := readOnly;
      hoverRating := 0;
    }

    /** The fill flags of the five stars for `rating`. */
    function Stars(rating: Js): (row: seq<bool>)
      reads this
      ensures |row| == 5
      ensures forall i :: 0 <= i < 5 ==>
        row[i] == (i + 1 <= ValueToCompare(readOnly, hoverRating, SanitizedRating(rating)))
    {
      Row(5, ValueToCompare(readOnly, hoverRating, SanitizedRating(rating)))
    }

    /** A new `readOnly` property; the effect resets hover when it becomes
        true. */
    method SetReadOnly(ro: bool)
      requires Valid()
      modifies this
      ensures Valid() && readOnly == ro
      ensures ro ==> hoverRating == 0
      ensures !ro ==> hoverRating == old(hoverRating)
    {
      if ro != readOnly {
        readOnly := ro;
        if ro {
          hoverRating := 0;
        }
      }
    }

    /** `onMouseEnter` of the star valued `star`. */
    method MouseEnter(star: int)
      requires Valid() && 1 <= star <= 5
      modifies this
      ensures Valid() && readOnly == old(readOnly)
      ensures hoverRating == if readOnly then old(hoverRating) else star
    {
      if !readOnly {
        hoverRating := star;
      }
    }

    /** `onMouseLeave`. */
    method MouseLeave()
      requires Valid()
      modifies this
      ensures Valid() && readOnly == old(readOnly) && hoverRating == 0
    {
      if !readOnly {
        hoverRating := 0;
      }
    }

    /** `onClick` of the star valued `star`: the value handed to
        `onRatingChange`, if any. */
    method Click(star: int, hasHandler: bool) returns (forwarded: Option<int>)
      ensures forwarded == if !readOnly && hasHandler then Some(star) else None
    {
      if !readOnly && hasHandler {
        forwarded := Some(star);
      } else {
        forwarded := None;
      }
    }
  }

  /** With no hover, or read-only, an integer rating `r` fills exactly the
      stars valued `1 .. r` (clamped to five); a rating that is not a number
      fills none. */
  lemma RestingStars(w: StarRatingWidget, rating: Js)
    requires w.Valid() && w.hoverRating == 0
    ensures CountFilled(w.Stars(rating)) == Clamp(SanitizedRating(rating), 5)
    ensures rating.Num? && 0 <= rating.n <= 5 ==> CountFilled(w.Stars(rating)) == rating.n
    ensures !rating.Num? ==> forall i :: 0 <= i < 5 ==> !w.Stars(rating)[i]
  {
    RowCount(5, SanitizedRating(rating));
  }

  /** While a star is hovered on an editable widget, exactly the stars up to
      it are filled, whatever the rating. */
  lemma HoveredStars(w: StarRatingWidget, rating: Js)
    requires w.Valid() && !w.readOnly && w.hoverRating != 0
    ensures CountFilled(w.Stars(rating)) == w.hoverRating
    ensures forall i :: 0 <= i < 5 ==> (w.Stars(rating)[i] <==> i < w.hoverRating)
  {
    RowCount(5, w.hoverRating);
  }
}
