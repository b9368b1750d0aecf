/** The styled add/edit form (Frontend/public/pages/FormularioJuego.jsx): its
    record is a plain JavaScript object; `handleChange` toggles values of the
    checkbox arrays or stores the raw text of any other input, and the star
    row sets and shows the rating. */
module StyledForm {
  import opened Wrappers
  import opened JsValue

  /** The record the form starts from. */
  const InitialFormData: JsObject := map[
    "title" := Str(""), "platforms" := Arr([]), "genres" := Arr([]),
    "developer" := Str(""), "publisher" := Str(""), "releaseDate" := Str(""),
    "coverUrl" := Str(""), "synopsis" := Str(""), "status" := Str("Pendiente"),
    "rating" := Num(0), "hoursPlayed" := Num(0)]

  /** The initial record: status "Pendiente", rating and hours 0, no platform
      and no genre ticked, every text field empty. */
  lemma InitialFormDataShape()
    ensures Get(InitialFormData, "status") == Str("Pendiente")
    ensures Get(InitialFormData, "rating") == Num(0) && Get(InitialFormData, "hoursPlayed") == Num(0)
    ensures Get(InitialFormData, "platforms") == Arr([]) && Get(InitialFormData, "genres") == Arr([])
    ensures Get(InitialFormData, "title") == Str("") && Get(InitialFormData, "developer") == Str("")
    ensures Get(InitialFormData, "publisher") == Str("") && Get(InitialFormData, "releaseDate") == Str("")
    ensures Get(InitialFormData, "coverUrl") == Str("") && Get(InitialFormData, "synopsis") == Str("")
  {
  }

  /** `items.filter(item => item !== value)`. */
  function Without(items: seq<Js>, value: Js): (r: seq<Js>)
    ensures |r| <= |items|
  {
    if items == [] then []
    else (if StrictEquals(items[0], value) then [] else [items[0]]) + Without(items[1..], value)
  }

  /** Unticking removes every copy of the value, keeps every other item as
      often as it was there, and keeps their order (it is a subsequence). */
  lemma WithoutFacts(items: seq<Js>, v: string)
    ensures Str(v) !in Without(items, Str(v))
    ensures forall x :: x != Str(v) ==> multiset(Without(items, Str(v)))[x] == multiset(items)[x]
    ensures IsSubsequence(Without(items, Str(v)), items)
  {
    WithoutRemoves(items, v);
    WithoutCounts(items, v);
    WithoutSubsequence(items, v);
  }

  lemma {:induction false} WithoutRemoves(items: seq<Js>, v: string)
    ensures Str(v) !in Without(items, Str(v))
  {
    if items != [] {
      WithoutRemoves(items[1..], v);
    }
  }

  lemma {:induction false} WithoutCounts(items: seq<Js>, v: string)
    ensures forall x :: x != Str(v) ==> multiset(Without(items, Str(v)))[x] == multiset(items)[x]
  {
    if items != [] {
      WithoutCounts(items[1..], v);
      assert items == [items[0]] + items[1..];
      assert multiset(items) == multiset{items[0]} + multiset(items[1..]);
    }
  }

  lemma {:induction false} WithoutSubsequence(items: seq<Js>, v: string)
    ensures IsSubsequence(Without(items, Str(v)), items)
  {
    if items != [] {
      WithoutSubsequence(items[1..], v);
      var rest := Without(items[1..], Str(v));
      if !StrictEquals(items[0], Str(v)) {
        assert ([items[0]] + rest)[1..] == rest;
      } else {
        assert Without(items, Str(v)) == rest;
      }
    }
  }

  /** `xs` is `ys` with some items dropped, the rest in their order. */
  predicate IsSubsequence(xs: seq<Js>, ys: seq<Js>)
  {
    if ys == [] then xs == []
    else (xs != [] && xs[0] == ys[0] && IsSubsequence(xs[1..], ys[1..])) || IsSubsequence(xs, ys[1..])
  }

  /** Ticking a value that was not there and unticking it again gives back
      the original array. */
  lemma {:induction false} TickUntick(items: seq<Js>, v: string)
    requires Str(v) !in items
    ensures Without(items + [Str(v)], Str(v)) == items
  {
    if items == [] {
      assert [Str(v)][1..] == [];
    } else {
      assert (items + [Str(v)])[1..] == items[1..] + [Str(v)];
      TickUntick(items[1..], v);
      assert items == [items[0]] + items[1..];
    }
  }

  /** `[...prev[name]]`: spreading an array gives its items and spreading a
      string gives its characters; anything else is not iterable. */
  function Spread(v: Js): Option<seq<Js>>
  {
    match v
    case Arr(items) => Some(items)
    case Str(s) => Some(seq(|s|, i requires 0 <= i < |s| => Str([s[i]])))
    case _ => None
  }

  /** One change event: `name`, `value`, whether the input is a checkbox and
      whether it is now checked. Err is the TypeError thrown when the named
      property is not an array (or, for ticking, not iterable). */
  function HandleChange(prev: JsObject, name: string, value: string, isCheckbox: bool, checked: bool)
    : (r: Result<JsObject>)
    ensures r.Ok? ==> r.value.Keys == prev.Keys + {name}
    ensures r.Ok? ==> forall k :: k in prev && k != name ==> r.value[k] == prev[k]
    ensures !isCheckbox ==> r == Ok(prev[name := Str(value)])
    ensures isCheckbox && checked && Get(prev, name).Arr? ==>
      r == Ok(prev[name := Arr(Get(prev, name).items + [Str(value)])])
    ensures isCheckbox && checked && Get(prev, name).Str? ==>
      var t := Get(prev, name).s;
      && r.Ok? && r.value[name].Arr?
      && |r.value[name].items| == |t| + 1
      && (forall i :: 0 <= i < |t| ==> r.value[name].items[i] == Str([t[i]]))
      && r.value[name].items[|t|] == Str(value)
    ensures isCheckbox && !checked && Get(prev, name).Arr? ==>
      r == Ok(prev[name := Arr(Without(Get(prev, name).items, Str(value)))])
    ensures isCheckbox && !Get(prev, name).Arr? && !(checked && Get(prev, name).Str?) ==> r.Err?
  {
    if !isCheckbox then Ok(prev[name := Str(value)])
    else if checked then
      match Spread(Get(prev, name))
      case Some(items) => Ok(prev[name := Arr(items + [Str(value)])])
      case None => Err("TypeError: prev[name] is not iterable")
    else
      match Get(prev, name)
      case Arr(items) => Ok(prev[name := Arr(Without(items, Str(value)))])
      case _ => Err("TypeError: prev[name].filter is not a function")
  }

  /** `handleStarClick(index)`: the rating becomes `index + 1`, nothing else
      changes. */
  function HandleStarClick(prev: JsObject, index: int): (r: JsObject)
    ensures r.Keys == prev.Keys + {"rating"}
    ensures forall k :: k in prev && k != "rating" ==> r[k] == prev[k]
    ensures r["rating"] == Num(index + 1)
  {
    prev["rating" := Num(index + 1)]
  }

  /** Star `index` is filled when `index < formData.rating`. */
  predicate StarFilled(data: JsObject, index: int)
  {
    NumLess(index, Get(data, "rating"))
  }

  /** How many of the stars `0 .. n - 1` are filled. */
  function FilledStars(data: JsObject, n: nat): nat
  {
    if n == 0 then 0 else FilledStars(data, n - 1) + (if StarFilled(data, n - 1) then 1 else 0)
  }

  /** With a rating `r` in 0..5, star `i` of the five is filled exactly when
      `i < r`, so exactly `r` stars are filled. */
  lemma FilledStarsCount(data: JsObject, r: int)
    requires Get(data, "rating") == Num(r) && 0 <= r <= 5
    ensures forall i :: 0 <= i < 5 ==> (StarFilled(data, i) <==> i < r)
    ensures FilledStars(data, 5) == r
  {
    FilledPrefix(data, r, 5);
  }

  lemma {:induction false} FilledPrefix(data: JsObject, r: int, n: nat)
    requires Get(data, "rating") == Num(r) && 0 <= r
    ensures FilledStars(data, n) == if n <= r then n else r
  {
    if n > 0 {
      FilledPrefix(data, r, n - 1);
    }
  }

  /** Clicking star `index` (0..4) leaves exactly `index + 1` stars filled. */
  lemma StarClickFills(prev: JsObject, index: int)
    requires 0 <= index < 5
    ensures FilledStars(HandleStarClick(prev, index), 5) == index + 1
    ensures forall i :: 0 <= i < 5 ==> (StarFilled(HandleStarClick(prev, index), i) <==> i <= index)
  {
    FilledStarsCount(HandleStarClick(prev, index), index + 1);
  }
}
