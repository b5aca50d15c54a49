/**
  The province-click lookup of the `App` component (src/MapView.jsx):
  the three state cells `loading`, `selectedProvince` and `restaurants`
  (lines 24-26), the lookup `fetchRestaurants` that updates them around two
  network round trips (lines 38-87), and the status line and truncation
  notice rendered from them (lines 129-138).

  Both network answers are parameters. A `Failed` answer stands for a
  rejected request and for an answer whose shape makes the code throw; the
  `catch` at line 82 treats them alike.
 */
module RestaurantLookup {
  import opened JsValues
  import opened RestaurantResults

  /** The outcome of one GET request. */
  datatype Response<T> = Ok(data: T) | Failed

  /** One Nominatim match; its coordinates arrive as strings and only go into the query text. */
  datatype Place = Place(lat: string, lon: string)

  /** What the component renders from, one value per state cell. */
  datatype ViewState = ViewState(
    loading: bool,
    selectedProvince: Option<string>,
    restaurants: seq<Restaurant>)

  /** The heading above the map: nothing, "Buscando...", or "Mostrando n restaurantes en p". */
  datatype Status = Hidden | Searching | Showing(count: nat, province: string)

  /** The point the Overpass query is sent for: the first geocoder match, if there is one. */
  function PoiQuery(geocode: Response<seq<Place>>): Option<Place> {
    if geocode.Ok? && |geocode.data| > 0 then Some(geocode.data[0]) else None
  }

  /**
    The restaurant list a lookup leaves behind. Only a geocoder match
    followed by a successful Overpass answer produces entries; every other
    path keeps the empty list the lookup started from.
   */
  function LookupResult(geocode: Response<seq<Place>>, pois: Response<seq<Element>>): (r: seq<Restaurant>)
    ensures |r| <= Limit
    ensures !(geocode.Ok? && |geocode.data| > 0) ==> r == []
    ensures pois.Failed? ==> r == []
    ensures geocode.Ok? && |geocode.data| > 0 && pois.Ok? ==> |r| == Min(Limit, CountKept(pois.data))
  {
    if PoiQuery(geocode).Some? && pois.Ok? then Normalise(pois.data) else []
  }

  /** The state once a lookup of `name` has run to completion, whatever the previous state was. */
  function AfterLookup(name: string, geocode: Response<seq<Place>>, pois: Response<seq<Element>>): (v: ViewState)
    ensures !v.loading
    ensures v.selectedProvince == Some(name)
    ensures |v.restaurants| <= Limit
  {
    ViewState(false, Some(name), LookupResult(geocode, pois))
  }

  /** The heading of lines 129-133, shown only once a province with a non-empty name is selected. */
  function StatusLine(v: ViewState): Status {
    if !TruthyText(v.selectedProvince) then Hidden
    else if v.loading then Searching
    else Showing(|v.restaurants|, v.selectedProvince.value)
  }

  /**
    The notice "Se muestran solo los primeros 50 resultados" (line 134). It
    sits inside the block guarded by `selectedProvince` (line 129), so it
    also needs a non-empty selected name.
   */
  predicate ShowsTruncationNotice(v: ViewState)
    ensures ShowsTruncationNotice(v) <==> StatusLine(v).Showing? && StatusLine(v).count == Limit
  {
    TruthyText(v.selectedProvince) && !v.loading && |v.restaurants| == Limit
  }

  /**
    Once a lookup has ended the heading never stays on "Buscando...": it
    reports the number of restaurants left for the clicked name, or is hidden
    when that name is empty.
   */
  lemma StatusAfterLookup(name: string, geocode: Response<seq<Place>>, pois: Response<seq<Element>>)
    ensures StatusLine(AfterLookup(name, geocode, pois))
            == if name == "" then Hidden else Showing(|LookupResult(geocode, pois)|, name)
  {
  }

  /**
    After a lookup the notice shows exactly when the province has a name, the
    geocoder matched, Overpass answered, and at least `Limit` of its elements
    pass the filter.
   */
  lemma NoticeAfterLookup(name: string, geocode: Response<seq<Place>>, pois: Response<seq<Element>>)
    ensures ShowsTruncationNotice(AfterLookup(name, geocode, pois))
            <==> name != "" && geocode.Ok? && |geocode.data| > 0 && pois.Ok? && CountKept(pois.data) >= Limit
  {
  }

  /**
    A geocoder match followed by 73 raw elements that all pass the filter
    leaves exactly 50 restaurants and shows the notice.
   */
  lemma {:induction false} SeventyThreeElementsShowFifty(name: string, place: Place, es: seq<Element>)
    requires name != "" && |es| == 73
    requires forall e :: e in es ==> Kept(e)
    ensures |AfterLookup(name, Ok([place]), Ok(es)).restaurants| == 50
    ensures ShowsTruncationNotice(AfterLookup(name, Ok([place]), Ok(es)))
  {
    CountKeptAll(es);
  }

  /**
    A geocoder with no match leaves no restaurants, a finished lookup and no
    notice, whatever the Overpass answer would have been.
   */
  lemma NoMatchLeavesEmpty(name: string, pois: Response<seq<Element>>)
    ensures AfterLookup(name, Ok([]), pois) == ViewState(false, Some(name), [])
    ensures !ShowsTruncationNotice(AfterLookup(name, Ok([]), pois))
  {
  }

  /** The React component's state cells. */
  class App {
    var loading: bool
    var selectedProvince: Option<string>
    var restaurants: seq<Restaurant>

    /** The list shown never exceeds the cap. */
    ghost predicate Valid()
      reads this
    {
      |restaurants| <= Limit
    }

    function View(): ViewState
      reads this
    {
      ViewState(loading, selectedProvince, restaurants)
    }

    /** `useState([])`, `useState(null)`, `useState(false)` (lines 24-26). */
    constructor ()
      ensures Valid()
      ensures View() == ViewState(false, None, [])
    {
      loading := false;
      selectedProvince := None;
      restaurants := [];
    }

    /** The synchronous start of a lookup (lines 39-41): the list is cleared, never kept. */
    method StartLookup(name: string)
      modifies this
      ensures Valid()
      ensures View() == ViewState(true, Some(name), [])
      ensures StatusLine(View()) == if name == "" then Hidden else Searching
      ensures !ShowsTruncationNotice(View())
    {
      loading := true;
      selectedProvince := Some(name);
      restaurants := [];
    }

    /**
      The rest of the lookup (lines 43-86), after both awaits have settled.
      The list is replaced only on the success path; `finally` clears
      `loading` on every path. Returns the point the Overpass query was sent
      for, or `None` when no query was sent.
     */
    method CompleteLookup(geocode: Response<seq<Place>>, pois: Response<seq<Element>>)
      returns (queried: Option<Place>)
      requires Valid()
      modifies this
      ensures Valid()
      ensures queried.Some? <==> geocode.Ok? && |geocode.data| > 0
      ensures queried.Some? ==> queried.value == geocode.data[0]
      ensures !loading
      ensures selectedProvince == old(selectedProvince)
      ensures restaurants == if queried.Some? && pois.Ok? then Normalise(pois.data) else old(restaurants)
    {
      queried := None;
      // try
      match geocode {
        case Failed =>
          // a rejected geocoder request lands in catch
        case Ok(places) =>
          if |places| > 0 {
            var first := places[0];
            queried := Some(first);
            match pois {
              case Failed =>
                // a rejected Overpass request, or an answer without `elements`, lands in catch
              case Ok(elements) =>
                restaurants := Normalise(elements);
            }
          }
      }
      // finally
      loading := false;
    }

    /**
      `fetchRestaurants(provinceName)`, run to completion: the new state
      depends only on the name and the two answers, so the previous list is
      replaced, never appended to, and `loading` always ends false.
     */
    method FetchRestaurants(name: string, geocode: Response<seq<Place>>, pois: Response<seq<Element>>)
      returns (queried: Option<Place>)
      modifies this
      ensures Valid()
      ensures View() == AfterLookup(name, geocode, pois)
      ensures queried.Some? <==> geocode.Ok? && |geocode.data| > 0
      ensures queried.Some? ==> queried.value == geocode.data[0]
    {
      StartLookup(name);
      queried := CompleteLookup(geocode, pois);
    }
  }

  /**
    Two clicks in a row: the second lookup's failure leaves an empty list,
    not the first lookup's restaurants.
   */
  method ReclickReplaces(app: App, first: string, second: string, place: Place, es: seq<Element>)
    modifies app
    ensures app.View() == ViewState(false, Some(second), [])
  {
    var q1 := app.FetchRestaurants(first, Ok([place]), Ok(es));
    var q2 := app.FetchRestaurants(second, Ok([place]), Failed);
  }

  /**
    A click on a province the geocoder cannot match: the lookup sends no
    Overpass query and ends with an empty list and `loading` off.
   */
  method NoMatchSendsNoQuery(app: App, name: string, pois: Response<seq<Element>>)
    returns (queried: Option<Place>)
    modifies app
    ensures queried == None
    ensures app.View() == ViewState(false, Some(name), [])
  {
    queried := app.FetchRestaurants(name, Ok([]), pois);
  }
}
