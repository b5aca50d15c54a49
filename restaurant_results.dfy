/**
  Normalisation of the Overpass answer into the restaurant list the map
  shows (src/MapView.jsx, `fetchRestaurants`, lines 70-78).

  The filter keeps an element whose lat and lon are both truthy, or that has
  a centroid. The map builds an entry with the element's id, each coordinate
  taken from the element when truthy and otherwise from the centroid, and
  the element's tags or an empty map. The list then keeps its first `Limit`
  entries.

  `FilterKept` is the filter, `NormaliseAll` the map, `Normalise` the whole
  chain. `CountKept` and `KeptIndex` describe, independently of the filter,
  how many raw elements survive and where the k-th survivor sits in the input.
 */
module RestaurantResults {
  import opened JsValues

  /** The cap the component applies to the list it shows (`.slice(0, 50)`). */
  const Limit: nat := 50

  /** The centroid Overpass attaches to a way or relation. */
  datatype Center = Center(lat: int, lon: int)

  /** One raw Overpass element: a node carries lat/lon, a way or relation may carry a center. */
  datatype Element = Element(
    id: int,
    lat: Option<int>,
    lon: Option<int>,
    center: Option<Center>,
    tags: Option<map<string, string>>)

  /** One entry of the list the map renders as a marker. */
  datatype Restaurant = Restaurant(id: int, lat: int, lon: int, tags: map<string, string>)

  function Min(a: int, b: int): int {
    if a <= b then a else b
  }

  /**
    The filter's test `el.lat && el.lon || el.center`: kept exactly when each
    coordinate can be resolved, from the element itself or from its centroid.
   */
  predicate Kept(el: Element)
    ensures Kept(el) <==> (Truthy(el.lat) || el.center.Some?) && (Truthy(el.lon) || el.center.Some?)
  {
    (Truthy(el.lat) && Truthy(el.lon)) || el.center.Some?
  }

  /** The centroid's latitude, when there is a centroid. */
  function CenterLat(el: Element): Option<int> {
    if el.center.Some? then Some(el.center.value.lat) else None
  }

  /** The centroid's longitude, when there is a centroid. */
  function CenterLon(el: Element): Option<int> {
    if el.center.Some? then Some(el.center.value.lon) else None
  }

  /**
    A coordinate `v` taken from `own` when that is truthy, and otherwise from
    a fallback that must exist.
   */
  predicate ResolvedFrom(own: Option<int>, fallback: Option<int>, v: int) {
    (Truthy(own) && v == own.value) || (!Truthy(own) && fallback == Some(v))
  }

  /**
    `r` is what the map step makes of `el`: the same id, each coordinate
    resolved on its own (so one entry may mix its own latitude with the
    centroid's longitude), and the element's tags or the empty map.
   */
  predicate Resolves(el: Element, r: Restaurant) {
    && r.id == el.id
    && ResolvedFrom(el.lat, CenterLat(el), r.lat)
    && ResolvedFrom(el.lon, CenterLon(el), r.lon)
    && r.tags == el.tags.GetOr(map[])
  }

  /**
    The map step on one element. In JavaScript `el.center.lat` throws when
    `center` is missing; the requires, which is exactly the filter's test,
    is what rules that out: the centroid is only reached when it exists.
   */
  function NormaliseOne(el: Element): (r: Restaurant)
    requires Kept(el)
    ensures Resolves(el, r)
  {
    var lat := if Truthy(el.lat) then el.lat.value else el.center.value.lat;
    var lon := if Truthy(el.lon) then el.lon.value else el.center.value.lon;
    Restaurant(el.id, lat, lon, el.tags.GetOr(map[]))
  }

  /** The number of raw elements that pass the filter. */
  function CountKept(es: seq<Element>): (n: nat)
    ensures n <= |es|
    ensures n == 0 <==> forall e :: e in es ==> !Kept(e)
  {
    if es == [] then 0
    else (if Kept(es[0]) then 1 else 0) + CountKept(es[1..])
  }

  /**
    The position in `es` of the k-th element (from 0) that passes the filter.
    `KeptIndexCount` shows it is the kept element with exactly k kept
    elements before it.
   */
  function KeptIndex(es: seq<Element>, k: nat): (i: nat)
    requires k < CountKept(es)
    ensures i < |es| && Kept(es[i])
  {
    if Kept(es[0]) && k == 0 then 0
    else 1 + KeptIndex(es[1..], if Kept(es[0]) then k - 1 else k)
  }

  /** The filter step: the elements that pass `Kept`, in input order. */
  function FilterKept(es: seq<Element>): (r: seq<Element>)
    ensures |r| == CountKept(es)
    ensures forall e :: e in r <==> e in es && Kept(e)
  {
    if es == [] then []
    else if Kept(es[0]) then [es[0]] + FilterKept(es[1..])
    else FilterKept(es[1..])
  }

  /** The map step: one entry per element that passed the filter, built by `NormaliseOne`. */
  function NormaliseAll(es: seq<Element>): (r: seq<Restaurant>)
    requires forall e :: e in es ==> Kept(e)
    ensures |r| == |es|
    ensures forall k :: 0 <= k < |es| ==> Resolves(es[k], r[k])
  {
    if es == [] then [] else [NormaliseOne(es[0])] + NormaliseAll(es[1..])
  }

  /**
    The whole chain: at most `Limit` entries, exactly `min(Limit, kept)`,
    and none at all when no element passes the filter.
   */
  function Normalise(es: seq<Element>): (r: seq<Restaurant>)
    ensures |r| <= Limit
    ensures |r| == Min(Limit, CountKept(es))
    ensures r == [] <==> forall e :: e in es ==> !Kept(e)
  {
    var all := NormaliseAll(FilterKept(es));
    all[..Min(Limit, |all|)]
  }

  // ---------------------------------------------------------------------
  // Counting and positions

  lemma {:induction false} CountKeptAppend(a: seq<Element>, b: seq<Element>)
    ensures CountKept(a + b) == CountKept(a) + CountKept(b)
  {
    if a == [] {
      assert a + b == b;
    } else {
      assert (a + b)[1..] == a[1..] + b;
      CountKeptAppend(a[1..], b);
    }
  }

  /** When every element passes the filter, every element is counted. */
  lemma {:induction false} CountKeptAll(es: seq<Element>)
    requires forall e :: e in es ==> Kept(e)
    ensures CountKept(es) == |es|
  {
    if es != [] {
      assert es[0] in es;
      assert forall e :: e in es[1..] ==> e in es;
      CountKeptAll(es[1..]);
    }
  }

  /** The filter keeps the input's order: the k-th survivor is the k-th kept element. */
  lemma {:induction false} FilterKeptAt(es: seq<Element>, k: nat)
    requires k < CountKept(es)
    ensures FilterKept(es)[k] == es[KeptIndex(es, k)]
  {
    if Kept(es[0]) && k == 0 {
      assert FilterKept(es) == [es[0]] + FilterKept(es[1..]);
    } else {
      var k' := if Kept(es[0]) then k - 1 else k;
      FilterKeptAt(es[1..], k');
      assert KeptIndex(es, k) == 1 + KeptIndex(es[1..], k');
      if Kept(es[0]) {
        assert FilterKept(es) == [es[0]] + FilterKept(es[1..]);
      } else {
        assert FilterKept(es) == FilterKept(es[1..]);
      }
    }
  }

  /** Survivors appear in the order of their positions in the input. */
  lemma {:induction false} KeptIndexIncreasing(es: seq<Element>, j: nat, k: nat)
    requires j < k < CountKept(es)
    ensures KeptIndex(es, j) < KeptIndex(es, k)
  {
    if Kept(es[0]) {
      if j > 0 {
        KeptIndexIncreasing(es[1..], j - 1, k - 1);
      }
    } else {
      KeptIndexIncreasing(es[1..], j, k);
    }
  }

  /** The k-th survivor has exactly k kept elements before it. */
  lemma {:induction false} KeptIndexCount(es: seq<Element>, k: nat)
    requires k < CountKept(es)
    ensures CountKept(es[..KeptIndex(es, k)]) == k
  {
    if !(Kept(es[0]) && k == 0) {
      var k' := if Kept(es[0]) then k - 1 else k;
      var j := KeptIndex(es[1..], k');
      assert KeptIndex(es, k) == 1 + j;
      KeptIndexCount(es[1..], k');
      var before := es[1..][..j];
      assert CountKept(before) == k';
      assert es[..1 + j] == [es[0]] + before;
      CountKeptAppend([es[0]], before);
      assert CountKept([es[0]]) == if Kept(es[0]) then 1 else 0;
    }
  }

  /** A kept element at position a is counted by every longer prefix. */
  lemma CountKeptGrows(es: seq<Element>, a: nat, b: nat)
    requires a < b <= |es| && Kept(es[a])
    ensures CountKept(es[..a]) < CountKept(es[..b])
  {
    assert es[..b] == es[..a] + es[a..b];
    CountKeptAppend(es[..a], es[a..b]);
    assert es[a..b][0] == es[a];
  }

  /**
    No kept element is skipped: the kept element at position i
    is survivor number `CountKept(es[..i])`.
   */
  lemma KeptIndexCovers(es: seq<Element>, i: nat)
    requires i < |es| && Kept(es[i])
    ensures CountKept(es[..i]) < CountKept(es)
    ensures KeptIndex(es, CountKept(es[..i])) == i
  {
    assert es[..|es|] == es;
    CountKeptGrows(es, i, |es|);
    var k := CountKept(es[..i]);
    var j := KeptIndex(es, k);
    KeptIndexCount(es, k);
    if j < i {
      CountKeptGrows(es, j, i);
    } else if j > i {
      CountKeptGrows(es, i, j);
    }
  }

  // ---------------------------------------------------------------------
  // The whole chain

  /**
    Entry k of the shown list is made from the k-th element that passed the
    filter: same id, coordinates resolved from it, its tags.
   */
  lemma NormaliseAt(es: seq<Element>, k: nat)
    requires k < |Normalise(es)|
    ensures KeptIndex(es, k) < |es|
    ensures Resolves(es[KeptIndex(es, k)], Normalise(es)[k])
  {
    FilterKeptAt(es, k);
  }

  /**
    Every kept element among the first `Limit` kept elements is
    shown, at the position given by the number of kept elements before it.
   */
  lemma NormaliseShowsEarlyElements(es: seq<Element>, i: nat)
    requires i < |es| && Kept(es[i]) && CountKept(es[..i]) < Limit
    ensures CountKept(es[..i]) < |Normalise(es)|
    ensures Resolves(es[i], Normalise(es)[CountKept(es[..i])])
  {
    KeptIndexCovers(es, i);
    NormaliseAt(es, CountKept(es[..i]));
  }

  lemma {:induction false} FilterKeptAppend(a: seq<Element>, b: seq<Element>)
    ensures FilterKept(a + b) == FilterKept(a) + FilterKept(b)
  {
    if a == [] {
      assert a + b == b;
    } else {
      assert (a + b)[1..] == a[1..] + b;
      FilterKeptAppend(a[1..], b);
    }
  }

  lemma {:induction false} NormaliseAllAppend(a: seq<Element>, b: seq<Element>)
    requires forall e :: e in a ==> Kept(e)
    requires forall e :: e in b ==> Kept(e)
    ensures NormaliseAll(a + b) == NormaliseAll(a) + NormaliseAll(b)
  {
    if a == [] {
      assert a + b == b;
    } else {
      assert (a + b)[1..] == a[1..] + b;
      NormaliseAllAppend(a[1..], b);
    }
  }

  /**
    Elements that arrive later never disturb the entries already chosen: the
    list for `es` is a prefix of the list for `es + more`.
   */
  lemma NormalisePrefix(es: seq<Element>, more: seq<Element>)
    ensures Normalise(es) <= Normalise(es + more)
  {
    FilterKeptAppend(es, more);
    NormaliseAllAppend(FilterKept(es), FilterKept(more));
  }

  /**
    Once `Limit` kept elements have arrived, nothing after them
    matters.
   */
  lemma NormaliseSaturates(es: seq<Element>, more: seq<Element>)
    requires CountKept(es) >= Limit
    ensures Normalise(es + more) == Normalise(es)
  {
    NormalisePrefix(es, more);
    CountKeptAppend(es, more);
  }

  /**
    A node standing exactly on a zero coordinate (the Greenwich meridian
    crosses Spain) has a falsy `lon`, and without a centroid it is dropped.
   */
  lemma ZeroLongitudeNodeDropped(id: int, lat: int, tags: Option<map<string, string>>)
    requires lat != 0
    ensures Normalise([Element(id, Some(lat), Some(0), None, tags)]) == []
  {
  }

  /**
    A way whose own latitude is truthy but whose longitude is missing takes
    the latitude from itself and the longitude from its centroid.
   */
  lemma MixedCoordinates(id: int, lat: int, c: Center)
    requires lat != 0
    ensures Normalise([Element(id, Some(lat), None, Some(c), None)])
            == [Restaurant(id, lat, c.lon, map[])]
  {
    var el := Element(id, Some(lat), None, Some(c), None);
    assert FilterKept([el]) == [el];
  }
}
