/** The resource catalogue store: read-only queries over the catalogue and the two counter updates. */
module ResourceContext {
  import opened Common
  import opened Types
  import Seqs
  import Text

  /** `getResourcesByType`: no type means the whole catalogue; a type keeps exactly the resources of
      that type, in catalogue order. */
  function ResourcesByType(resources: seq<Resource>, kind: Option<ResourceType>): (r: seq<Resource>)
    ensures kind.None? ==> r == resources
    ensures kind.Some? ==> Seqs.IsSubsequence(r, resources)
    ensures kind.Some? ==> forall x :: multiset(r)[x] == if x.kind == kind.value then multiset(resources)[x] else 0
  {
    match kind
    case None => resources
    case Some(k) =>
      var p := (x: Resource) => x.kind == k;
      Seqs.FilterSelects(p, resources);
      Seqs.Filter(p, resources)
  }

  /** `getResourcesBySubject`: exactly the resources whose subject equals `subject`, in catalogue order. */
  function ResourcesBySubject(resources: seq<Resource>, subject: string): (r: seq<Resource>)
    ensures Seqs.IsSubsequence(r, resources)
    ensures forall x :: multiset(r)[x] == if x.subject == subject then multiset(resources)[x] else 0
  {
    var p := (x: Resource) => x.subject == subject;
    Seqs.FilterSelects(p, resources);
    Seqs.Filter(p, resources)
  }

  /** The search test: the lower-cased title, description or subject contains the lower-cased query. */
  predicate MatchesQuery(x: Resource, lowerQuery: string)
  {
    Text.Contains(Text.Lower(x.title), lowerQuery)
    || Text.Contains(Text.Lower(x.description), lowerQuery)
    || Text.Contains(Text.Lower(x.subject), lowerQuery)
  }

  /** `searchResources`: an empty query returns the catalogue; otherwise exactly the resources that
      match the query case-insensitively, in catalogue order. */
  function SearchResources(resources: seq<Resource>, query: string): (r: seq<Resource>)
    ensures query == "" ==> r == resources
    ensures Seqs.IsSubsequence(r, resources)
    ensures query != "" ==>
      forall x :: multiset(r)[x] == if MatchesQuery(x, Text.Lower(query)) then multiset(resources)[x] else 0
  {
    if query == "" then
      assert resources == [] || resources == [resources[0]] + resources[1..];
      SelfSubsequence(resources);
      resources
    else
      var p := (x: Resource) => MatchesQuery(x, Text.Lower(query));
      Seqs.FilterSelects(p, resources);
      Seqs.Filter(p, resources)
  }

  /** Every sequence is a subsequence of itself. */
  lemma {:induction false} SelfSubsequence<T>(s: seq<T>)
    ensures Seqs.IsSubsequence(s, s)
  {
    if s != [] {
      SelfSubsequence(s[1..]);
    }
  }

  /** The early return for an empty query agrees with the filter it skips: every field contains "". */
  lemma EmptyQueryMatchesAll(resources: seq<Resource>)
    ensures Seqs.Filter((x: Resource) => MatchesQuery(x, Text.Lower("")), resources) == resources
  {
    forall i | 0 <= i < |resources| ensures MatchesQuery(resources[i], Text.Lower("")) {
      Text.ContainsEmpty(Text.Lower(resources[i].title));
    }
    Seqs.FilterKeepsAll((x: Resource) => MatchesQuery(x, Text.Lower("")), resources);
  }

  /** The two counters a resource carries. */
  datatype Counter = Likes | Downloads

  /** The value of counter `c` of resource `x`. */
  function CounterOf(x: Resource, c: Counter): int
  {
    match c
    case Likes => x.likes
    case Downloads => x.downloads
  }

  /** `prev.map(r => r.id === id ? { ...r, <counter>: r.<counter> + 1 } : r)`. */
  function IncrementWhere(resources: seq<Resource>, id: string, c: Counter): (r: seq<Resource>)
    ensures |r| == |resources|
    ensures forall i :: 0 <= i < |r| && resources[i].id != id ==> r[i] == resources[i]
    ensures forall i :: 0 <= i < |r| && resources[i].id == id ==>
      CounterOf(r[i], c) == CounterOf(resources[i], c) + 1
      && r[i] == (match c
                  case Likes => resources[i].(likes := r[i].likes)
                  case Downloads => resources[i].(downloads := r[i].downloads))
  {
    if resources == [] then []
    else
      var x := resources[0];
      var y := if x.id != id then x
               else match c
                    case Likes => x.(likes := x.likes + 1)
                    case Downloads => x.(downloads := x.downloads + 1);
      [y] + IncrementWhere(resources[1..], id, c)
  }

  /** How many resources carry identifier `id`. */
  function CountId(resources: seq<Resource>, id: string): nat
  {
    if resources == [] then 0 else (if resources[0].id == id then 1 else 0) + CountId(resources[1..], id)
  }

  /** The sum of counter `c` over the catalogue. */
  function Total(resources: seq<Resource>, c: Counter): int
  {
    if resources == [] then 0 else CounterOf(resources[0], c) + Total(resources[1..], c)
  }

  /** An increment raises the catalogue-wide total by the number of resources carrying `id`. */
  lemma {:induction false} IncrementRaisesTotal(resources: seq<Resource>, id: string, c: Counter)
    ensures Total(IncrementWhere(resources, id, c), c) == Total(resources, c) + CountId(resources, id)
  {
    if resources != [] {
      IncrementRaisesTotal(resources[1..], id, c);
      assert IncrementWhere(resources, id, c)[1..] == IncrementWhere(resources[1..], id, c);
    }
  }

  /** An increment never touches the other counter. */
  lemma {:induction false} IncrementKeepsOtherTotal(resources: seq<Resource>, id: string, c: Counter, other: Counter)
    requires other != c
    ensures Total(IncrementWhere(resources, id, c), other) == Total(resources, other)
  {
    if resources != [] {
      IncrementKeepsOtherTotal(resources[1..], id, c, other);
      assert IncrementWhere(resources, id, c)[1..] == IncrementWhere(resources[1..], id, c);
    }
  }

  /** `resources.find(r => r.id === id)`. */
  function FindById(resources: seq<Resource>, id: string): (r: Option<Resource>)
    ensures r.None? <==> forall i :: 0 <= i < |resources| ==> resources[i].id != id
    ensures r.Some? ==>
      exists i :: 0 <= i < |resources| && resources[i] == r.value && r.value.id == id
        && forall j :: 0 <= j < i ==> resources[j].id != id
  {
    var p := (x: Resource) => x.id == id;
    var r := Seqs.Find(p, resources);
    assert forall i :: 0 <= i < |resources| ==> (p(resources[i]) <==> resources[i].id == id);
    r
  }

  /** An increment for an identifier that `find` does not locate leaves the catalogue unchanged. */
  lemma UnknownIdIncrementIsNoop(resources: seq<Resource>, id: string, c: Counter)
    requires FindById(resources, id).None?
    ensures IncrementWhere(resources, id, c) == resources
  {
  }

  /** The toast of a like without a signed-in user. */
  const AuthenticationRequired := Notice("Authentication required", "Please log in to like resources.", Destructive)

  /** The toast of a download whose resource is not in the catalogue. */
  const DownloadFailed := Notice("Download failed", "There was an error downloading the resource.", Destructive)

  /** The toast of a download without a signed-in user, worded after the like handler's. */
  const DownloadAuthenticationRequired := Notice("Authentication required", "Please log in to download resources.", Destructive)

  /** The toast of a started download. */
  function DownloadStarted(title: string): Notice
  {
    Notice("Download started", "Downloading " + title + "...", Default)
  }

  /** A save-to-disk request: a click on an anchor whose `href` and `download` attributes are set. */
  datatype SaveRequest = SaveRequest(href: string, fileName: string)

  /** The provider's state. Toasts and anchor clicks are recorded, oldest first, instead of shown. */
  class ResourceStore {
    var resources: seq<Resource>
    var isLoading: bool
    var notices: seq<Notice>
    var saves: seq<SaveRequest>

    constructor (initial: seq<Resource>)
      ensures resources == initial && !isLoading && notices == [] && saves == []
    {
      resources := initial;
      isLoading := false;
      notices := [];
      saves := [];
    }

    /** `likeResource`: without a signed-in user only the "Authentication required" toast is shown;
        with one, every resource carrying `id` gains one like and nothing else changes. The handler
        only tests whether the session's user is present, so `signedIn` stands for that user. */
    method LikeResource(id: string, signedIn: bool)
      modifies this
      ensures !signedIn ==> resources == old(resources) && notices == old(notices) + [AuthenticationRequired]
      ensures signedIn ==> resources == IncrementWhere(old(resources), id, Likes) && notices == old(notices)
      ensures isLoading == old(isLoading) && saves == old(saves)
    {
      if !signedIn {
        notices := notices + [AuthenticationRequired];
        return;
      }
      resources := IncrementWhere(resources, id, Likes);
    }

    /** `downloadResource`: an unknown `id` shows "Download failed" and changes nothing else; a known one
        saves the first resource with that id under its title, adds one download to every resource
        carrying `id` and shows "Download started". Either way `isLoading` ends false. */
    method DownloadResource(id: string)
      modifies this
      ensures !isLoading
      ensures FindById(old(resources), id).None? ==>
        resources == old(resources) && saves == old(saves) && notices == old(notices) + [DownloadFailed]
      ensures FindById(old(resources), id).Some? ==>
        var found := FindById(old(resources), id).value;
        && resources == IncrementWhere(old(resources), id, Downloads)
        && saves == old(saves) + [SaveRequest(found.url, found.title)]
        && notices == old(notices) + [DownloadStarted(found.title)]
    {
      isLoading := true;
      var found := FindById(resources, id);
      match found {
        case None =>
          notices := notices + [DownloadFailed];
        case Some(res) =>
          saves := saves + [SaveRequest(res.url, res.title)];
          resources := IncrementWhere(resources, id, Downloads);
          notices := notices + [DownloadStarted(res.title)];
      }
      isLoading := false;
    }

    /** The download the help pages promise: with nobody signed in it is refused with an
        "Authentication required" toast and nothing is saved; otherwise it is `DownloadResource`.
        A file is saved only for a signed-in user. */
    method DownloadResourceAs(id: string, signedIn: bool)
      modifies this
      ensures !signedIn ==>
        resources == old(resources) && saves == old(saves) && isLoading == old(isLoading)
        && notices == old(notices) + [DownloadAuthenticationRequired]
      ensures signedIn && FindById(old(resources), id).None? ==>
        resources == old(resources) && saves == old(saves) && notices == old(notices) + [DownloadFailed] && !isLoading
      ensures signedIn && FindById(old(resources), id).Some? ==>
        var found := FindById(old(resources), id).value;
        && resources == IncrementWhere(old(resources), id, Downloads)
        && saves == old(saves) + [SaveRequest(found.url, found.title)]
        && notices == old(notices) + [DownloadStarted(found.title)]
        && !isLoading
      ensures saves != old(saves) ==> signedIn
    {
      if !signedIn {
        notices := notices + [DownloadAuthenticationRequired];
        return;
      }
      DownloadResource(id);
    }
  }

  /** As written, the catalogue hands a file to whoever asks: a fresh store with nobody signed in
      saves the requested resource. */
  method AnonymousDownloadIsSaved(x: Resource) returns (saves: seq<SaveRequest>)
    ensures saves == [SaveRequest(x.url, x.title)]
  {
    var store := new ResourceStore([x]);
    store.DownloadResource(x.id);
    saves := store.saves;
  }

  /** With the sign-in check in place the same request saves nothing and asks the user to log in. */
  method AnonymousGatedDownloadIsRefused(x: Resource) returns (saves: seq<SaveRequest>, notices: seq<Notice>)
    ensures saves == [] && notices == [DownloadAuthenticationRequired]
  {
    var store := new ResourceStore([x]);
    store.DownloadResourceAs(x.id, false);
    saves := store.saves;
    notices := store.notices;
  }
}
