/**
 * The top navigation bar: the debounced search box that sends a query to
 * the search page, the side drawer for small screens, and the search dialog
 * for very small screens.
 */
module Nav {
  import opened Text
  import opened UriEncoding

  /** Route prefix of the search results page. */
  const SearchPrefix: string := "/land/buscar/"

  /** Shortest query, in UTF-16 code units, that triggers a search. */
  const MinQueryLength: nat := 2

  /** Whether typing `busqueda` arms the debounce timer: only a query with
      something other than white space does. */
  predicate Schedules(busqueda: string): (r: bool)
    ensures r <==> !AllSpace(busqueda)
  {
    Trim(busqueda) != []
  }

  /** The search page for a trimmed query. */
  function SearchTarget(q: string): (t: string)
    ensures |t| >= |SearchPrefix| && t[..|SearchPrefix|] == SearchPrefix
    ensures forall k :: |SearchPrefix| <= k < |t| ==> t[k] != '/'
  {
    var t := SearchPrefix + Encode(q);
    assert t[|SearchPrefix|..] == Encode(q);
    forall k | |SearchPrefix| <= k < |t| ensures t[k] != '/' {
      EncodedIsOneSegment(q, k - |SearchPrefix|);
    }
    t
  }

  /** What the debounce callback does when it fires. */
  datatype SearchFire =
    | Ignore                              // query too short: return early
    | Go(target: string, navigate: bool)  // navigate unless already there, then clear the box

  function OnDebounce(busqueda: string, path: string): (r: SearchFire)
    ensures r == Ignore <==> Utf16Length(Trim(busqueda)) < MinQueryLength
    ensures r.Go? ==> r.target == SearchTarget(Trim(busqueda))
    ensures r.Go? ==> (r.navigate <==> path != r.target)
  {
    var q := Trim(busqueda);
    if Utf16Length(q) < MinQueryLength then Ignore
    else
      var target := SearchTarget(q);
      Go(target, path != target)
  }

  /** The search box text and the route after the callback has run. A long
      enough query clears the box and leaves the route at its search
      target, taken as given, whether or not `navigate` had to be called;
      a short one leaves both as they were. */
  function AfterFire(busqueda: string, path: string): (r: (string, string))
    ensures Utf16Length(Trim(busqueda)) < MinQueryLength ==> r == (busqueda, path)
    ensures Utf16Length(Trim(busqueda)) >= MinQueryLength ==>
      r == ([], SearchTarget(Trim(busqueda)))
  {
    match OnDebounce(busqueda, path)
    case Ignore => (busqueda, path)
    case Go(target, navigate) => ([], if navigate then target else path)
  }

  /** A one-character query is ignored, unless that character lies outside
      the Basic Multilingual Plane and so has a JavaScript length of 2. */
  lemma SingleCharacterQuery(busqueda: string)
    requires |Trim(busqueda)| == 1
    ensures OnDebounce(busqueda, []) == Ignore <==> Trim(busqueda)[0] as int < 0x10000
  {
    var q := Trim(busqueda);
    assert q[1..] == [];
  }

  /** Two different trimmed queries lead to two different search pages, so
      comparing the target with the current path decides correctly whether
      this very query is already shown. */
  lemma DistinctQueriesDistinctTargets(a: string, b: string)
    requires Trim(a) != Trim(b)
    ensures SearchTarget(Trim(a)) != SearchTarget(Trim(b))
  {
    var ea, eb := Encode(Trim(a)), Encode(Trim(b));
    if SearchPrefix + ea == SearchPrefix + eb {
      assert ea == (SearchPrefix + ea)[|SearchPrefix|..];
      assert eb == (SearchPrefix + eb)[|SearchPrefix|..];
      EncodeInjective(Trim(a), Trim(b));
    }
  }

  /** A query made of letters and digits appears in the route as typed. */
  lemma PlainQueryTarget(busqueda: string)
    requires forall k :: 0 <= k < |Trim(busqueda)| ==> IsUnreserved(Trim(busqueda)[k])
    ensures SearchTarget(Trim(busqueda)) == SearchPrefix + Trim(busqueda)
  {
    EncodeKeepsUnreserved(Trim(busqueda));
  }

  /** The navigation bar's state: the search box text, whether a debounce
      timer is armed, the drawer and dialog flags, and the current route. */
  class NavBar {
    var busqueda: string
    var pending: bool
    var drawerOpen: bool
    var searchDialogOpen: bool
    var path: string

    ghost predicate Valid()
      reads this
    {
      pending ==> Schedules(busqueda)
    }

    constructor (at: string)
      ensures Valid()
      ensures busqueda == [] && !pending && !drawerOpen && !searchDialogOpen && path == at
    {
      busqueda, pending, drawerOpen, searchDialogOpen, path := [], false, false, false, at;
    }

    /** Typing in the toolbar's or the dialog's search box: the effect
        cancels the previous timer and arms a new one unless the query is
        blank. */
    method Type(text: string)
      requires Valid()
      modifies this`busqueda, this`pending
      ensures Valid()
      ensures busqueda == text && pending == Schedules(text)
    {
      busqueda := text;
      pending := Schedules(text);
    }

    /** Typing in the drawer's search box: every key also reaches the
        drawer's key handler, which closes the drawer; the box then updates
        as in `Type`. */
    method TypeInDrawer(text: string)
      requires Valid()
      modifies this`busqueda, this`pending, this`drawerOpen
      ensures Valid()
      ensures !drawerOpen && busqueda == text && pending == Schedules(text)
      ensures searchDialogOpen == old(searchDialogOpen) && path == old(path)
    {
      ToggleDrawer(false);
      Type(text);
    }

    /** A route change made elsewhere re-runs the effect too. */
    method RouteChanged(to: string)
      requires Valid()
      modifies this`path, this`pending
      ensures Valid()
      ensures path == to && pending == Schedules(busqueda)
    {
      path := to;
      pending := Schedules(busqueda);
    }

    /** The 600 ms timer fires: the box and the route become what
        `AfterFire` says, and no timer is left armed. */
    method DebounceFires()
      requires Valid()
      modifies this`busqueda, this`pending, this`path
      ensures Valid() && !pending
      ensures old(pending) ==> (busqueda, path) == AfterFire(old(busqueda), old(path))
      ensures !old(pending) ==> busqueda == old(busqueda) && path == old(path)
    {
      if !pending {
        return;
      }
      pending := false;
      var fire := OnDebounce(busqueda, path);
      if fire.Go? {
        if fire.navigate {
          path := fire.target;
        }
        busqueda := [];
      }
    }

    /** `toggleDrawer(open)`: the menu button opens, closing actions close. */
    method ToggleDrawer(open: bool)
      modifies this`drawerOpen
      ensures drawerOpen == open
    {
      drawerOpen := open;
    }

    /** The search icon on small screens opens the dialog. */
    method OpenSearchDialog()
      modifies this`searchDialogOpen
      ensures searchDialogOpen
    {
      searchDialogOpen := true;
    }

    /** Clicking outside the dialog or its "Cerrar" button closes it. */
    method CloseSearchDialog()
      modifies this`searchDialogOpen
      ensures !searchDialogOpen
    {
      searchDialogOpen := false;
    }
  }
}
