/**
  The response-observer interceptor (ApiInterceptor.kt): a registry of
  listeners keyed by (path template, method), the segment-wise template
  matcher, and delivery of each matching response body to the listeners of
  the first matching key.
 */
module ApiInterceptor {
  import opened Http

  /** `ApiPath` (a type not part of this model): a path template and an HTTP method. */
  datatype ApiPath = ApiPath(path: string, httpMethod: string)

  /** An `ApiInterceptorListener` instance, by identity. */
  datatype Listener = Listener(id: nat)

  /** One call of `onApiResponse`, and whether the listener threw (the throw is swallowed). */
  datatype Delivery = Delivery(listener: Listener, apiPath: ApiPath, body: string, threw: bool)

  // ---------------------------------------------------------------------
  // Kotlin's String.split("/") and its inverse

  function SlashCount(s: string): nat {
    if s == [] then 0 else (if s[0] == '/' then 1 else 0) + SlashCount(s[1..])
  }

  /** `s.split("/")`: the pieces between slashes, empty pieces included. */
  function Split(s: string): (r: seq<string>)
    ensures |r| == SlashCount(s) + 1
    ensures forall i :: 0 <= i < |r| ==> '/' !in r[i]
  {
    if s == [] then [""]
    else
      var rest := Split(s[1..]);
      if s[0] == '/' then [""] + rest
      else [[s[0]] + rest[0]] + rest[1..]
  }

  /** `segments.joinToString("/")`. */
  function Join(segments: seq<string>): string
    requires |segments| >= 1
  {
    if |segments| == 1 then segments[0] else segments[0] + "/" + Join(segments[1..])
  }

  /** Splitting loses nothing: joining the pieces again gives back the string. */
  lemma {:induction false} JoinSplit(s: string)
    ensures Join(Split(s)) == s
  {
    if s != [] {
      var rest := Split(s[1..]);
      JoinSplit(s[1..]);
      if s[0] == '/' {
        assert Split(s) == [""] + rest;
        assert Join(Split(s)) == "" + "/" + Join(rest);
      } else {
        assert Split(s) == [[s[0]] + rest[0]] + rest[1..];
        if |rest| == 1 {
          assert Join(rest) == rest[0];
        } else {
          assert Join(rest) == rest[0] + "/" + Join(rest[1..]);
          assert Join(Split(s)) == [s[0]] + rest[0] + "/" + Join(rest[1..]);
        }
        assert s == [s[0]] + s[1..];
      }
    }
  }

  lemma {:induction false} SplitSlashFree(a: string, rest: string)
    requires '/' !in a
    ensures Split(a + rest) == [a + Split(rest)[0]] + Split(rest)[1..]
  {
    if a == [] {
      assert a + rest == rest;
      assert |Split(rest)| >= 1;
      assert a + Split(rest)[0] == Split(rest)[0];
      assert Split(rest) == [Split(rest)[0]] + Split(rest)[1..];
    } else {
      var whole := a + rest;
      assert whole[0] == a[0] && whole[1..] == a[1..] + rest;
      SplitSlashFree(a[1..], rest);
      var inner := Split(a[1..] + rest);
      assert inner[0] == a[1..] + Split(rest)[0];
      assert inner[1..] == Split(rest)[1..];
      assert Split(whole) == [[a[0]] + inner[0]] + inner[1..];
      assert [a[0]] + (a[1..] + Split(rest)[0]) == a + Split(rest)[0];
    }
  }

  /** Joining slash-free segments and splitting again gives back the segments. */
  lemma {:induction false} SplitJoin(segments: seq<string>)
    requires |segments| >= 1
    requires forall i :: 0 <= i < |segments| ==> '/' !in segments[i]
    ensures Split(Join(segments)) == segments
  {
    if |segments| == 1 {
      SplitSlashFree(segments[0], "");
      assert segments[0] + "" == segments[0];
    } else {
      var tail := Join(segments[1..]);
      SplitJoin(segments[1..]);
      SplitSlashFree(segments[0], "/" + tail);
      assert Join(segments) == segments[0] + ("/" + tail);
      assert Split("/" + tail) == [""] + Split(tail) by {
        assert ("/" + tail)[1..] == tail;
      }
      assert segments[0] + "" == segments[0];
      assert segments == [segments[0]] + segments[1..];
    }
  }

  // ---------------------------------------------------------------------
  // Path matching

  /** The index of the first occurrence of `x` in `s`. */
  function IndexOf<T(==)>(s: seq<T>, x: T): (i: nat)
    requires x in s
    ensures i < |s| && s[i] == x && x !in s[..i]
  {
    if s[0] == x then 0
    else
      var i := 1 + IndexOf(s[1..], x);
      assert s[..i] == [s[0]] + s[1..][..i - 1];
      i
  }

  /** `encodedPath.replaceFirst("/", "")`: the first slash, wherever it is, is removed. */
  function NormalizePath(s: string): string {
    if '/' in s then var i := IndexOf(s, '/'); s[..i] + s[i + 1..] else s
  }

  predicate IsPlaceholder(segment: string) {
    |segment| > 0 && segment[0] == '{'
  }

  predicate SegmentMatches(templateSegment: string, pathSegment: string) {
    templateSegment == pathSegment || IsPlaceholder(templateSegment)
  }

  /** `isTheSamePath`: equal segment counts, and every segment equal or a placeholder. */
  predicate IsTheSamePath(pattern: string, path: string) {
    var ps := Split(pattern);
    var qs := Split(path);
    |ps| == |qs| && forall i :: 0 <= i < |ps| ==> SegmentMatches(ps[i], qs[i])
  }

  /** A template and a path with different numbers of slashes never match. */
  lemma SlashCountMismatch(pattern: string, path: string)
    requires SlashCount(pattern) != SlashCount(path)
    ensures !IsTheSamePath(pattern, path)
  {
  }

  /** Without placeholders, a template matches exactly the path equal to it. */
  lemma LiteralTemplateMatchesOnlyItself(pattern: string, path: string)
    requires forall i :: 0 <= i < |Split(pattern)| ==> !IsPlaceholder(Split(pattern)[i])
    ensures IsTheSamePath(pattern, path) <==> pattern == path
  {
    if IsTheSamePath(pattern, path) {
      assert Split(pattern) == Split(path);
      JoinSplit(pattern);
      JoinSplit(path);
    }
  }

  /**
    Conversely to the definition, a template built from segments matches every
    path built by replacing its placeholder segments with any slash-free
    segment, the empty one included.
   */
  lemma TemplateMatchesInstances(template: seq<string>, segments: seq<string>)
    requires |template| == |segments| >= 1
    requires forall i :: 0 <= i < |template| ==> '/' !in template[i] && '/' !in segments[i]
    requires forall i :: 0 <= i < |template| ==> SegmentMatches(template[i], segments[i])
    ensures IsTheSamePath(Join(template), Join(segments))
  {
    SplitJoin(template);
    SplitJoin(segments);
  }

  /**
    A template written with a leading "/" starts with an empty segment, so it
    can only match a request whose encoded path starts with two slashes.
   */
  lemma LeadingSlashTemplate(pattern: string, encodedPath: string)
    requires |pattern| > 0 && pattern[0] == '/'
    requires |encodedPath| > 0 && encodedPath[0] == '/'
    requires IsTheSamePath(pattern, NormalizePath(encodedPath))
    ensures |encodedPath| >= 2 && encodedPath[1] == '/'
  {
    var path := encodedPath[1..];
    assert IndexOf(encodedPath, '/') == 0;
    assert NormalizePath(encodedPath) == path;
    assert Split(pattern)[0] == "";
    assert SegmentMatches(Split(pattern)[0], Split(path)[0]);
    assert |Split(path)| >= 2;
  }

  /** "users/{id}" matches "users/42", and "users/" too: a placeholder matches the empty segment. */
  lemma UsersIdMatches()
    ensures IsTheSamePath("users/{id}", "users/42")
    ensures IsTheSamePath("users/{id}", "users/")
  {
    TemplateMatchesInstances(["users", "{id}"], ["users", "42"]);
    assert Join(["users", "{id}"]) == "users/{id}";
    assert Join(["users", "42"]) == "users/42";
    TemplateMatchesInstances(["users", "{id}"], ["users", ""]);
    assert Join(["users", ""]) == "users/";
  }

  /** "users/{id}" does not match a path with one more segment. */
  lemma UsersIdRejectsLonger()
    ensures !IsTheSamePath("users/{id}", "users/42/extra")
  {
    SplitJoin(["users", "{id}"]);
    assert Join(["users", "{id}"]) == "users/{id}";
    SplitJoin(["users", "42", "extra"]);
    assert Join(["users", "42", "extra"]) == "users/42/extra";
    assert |Split("users/{id}")| == 2 && |Split("users/42/extra")| == 3;
  }

  /** A template whose first segment is a literal never matches a path whose first segment differs from it. */
  lemma FirstLiteralMismatch(template: seq<string>, segments: seq<string>)
    requires |template| >= 1 && |segments| >= 1
    requires forall i :: 0 <= i < |template| ==> '/' !in template[i]
    requires forall i :: 0 <= i < |segments| ==> '/' !in segments[i]
    requires !IsPlaceholder(template[0]) && template[0] != segments[0]
    ensures !IsTheSamePath(Join(template), Join(segments))
  {
    SplitJoin(template);
    SplitJoin(segments);
  }

  /** "users/{id}" does not match a path whose literal segment differs. */
  lemma UsersIdRejectsOtherLiteral()
    ensures !IsTheSamePath("users/{id}", "groups/42")
  {
    FirstLiteralMismatch(["users", "{id}"], ["groups", "42"]);
    assert Join(["users", "{id}"]) == "users/{id}";
    assert Join(["groups", "42"]) == "groups/42";
  }

  // ---------------------------------------------------------------------
  // Finding the key a request is delivered under

  predicate Matches(apiPath: ApiPath, path: string, httpMethod: string) {
    apiPath.httpMethod == httpMethod && IsTheSamePath(apiPath.path, path)
  }

  /** `findApiPath`: the first key, in insertion order, whose method and template match. */
  function FindApiPath(keys: seq<ApiPath>, path: string, httpMethod: string): (r: Option<ApiPath>)
    ensures r.None? <==> forall i :: 0 <= i < |keys| ==> !Matches(keys[i], path, httpMethod)
    ensures r.Some? ==> exists i :: 0 <= i < |keys| && keys[i] == r.value && Matches(keys[i], path, httpMethod)
                                   && forall j :: 0 <= j < i ==> !Matches(keys[j], path, httpMethod)
  {
    if keys == [] then None
    else if Matches(keys[0], path, httpMethod) then Some(keys[0])
    else
      var r := FindApiPath(keys[1..], path, httpMethod);
      assert r.Some? ==> exists i :: 1 <= i < |keys| && keys[i] == r.value && Matches(keys[i], path, httpMethod)
                                   && forall j :: 0 <= j < i ==> !Matches(keys[j], path, httpMethod) by {
        if r.Some? {
          var i :| 0 <= i < |keys[1..]| && keys[1..][i] == r.value && Matches(keys[1..][i], path, httpMethod)
                   && forall j :: 0 <= j < i ==> !Matches(keys[1..][j], path, httpMethod);
          assert forall j :: 1 <= j < i + 1 ==> keys[j] == keys[1..][j - 1];
        }
      }
      assert r.None? ==> forall i :: 0 <= i < |keys| ==> !Matches(keys[i], path, httpMethod) by {
        if r.None? {
          assert forall i :: 1 <= i < |keys| ==> keys[i] == keys[1..][i - 1];
        }
      }
      r
  }

  /** Only the first matching key is chosen, even when a later key also matches. */
  lemma FirstMatchWins(keys: seq<ApiPath>, path: string, httpMethod: string, i: nat, j: nat)
    requires Distinct(keys) && i < j < |keys|
    requires Matches(keys[i], path, httpMethod) && Matches(keys[j], path, httpMethod)
    ensures FindApiPath(keys, path, httpMethod) != Some(keys[j])
  {
  }

  // ---------------------------------------------------------------------
  // The registry: an insertion-ordered map (a LinkedHashMap) of listener lists

  /** `MutableList.remove(x)`: the first occurrence of `x` is removed, if any. */
  function RemoveFirst(s: seq<Listener>, x: Listener): (r: seq<Listener>)
    ensures x !in s ==> r == s
    ensures x in s ==> exists i :: 0 <= i < |s| && s[i] == x && x !in s[..i] && r == s[..i] + s[i + 1..]
    ensures multiset(r) == multiset(s) - multiset{x}
  {
    if x in s then
      var i := IndexOf(s, x);
      assert s == s[..i] + [x] + s[i + 1..];
      s[..i] + s[i + 1..]
    else s
  }

  /** `LinkedHashMap.remove(key)` on the key order. */
  function DeleteKey(keys: seq<ApiPath>, k: ApiPath): (r: seq<ApiPath>)
    ensures forall x :: x in r <==> x in keys && x != k
  {
    if keys == [] then []
    else if keys[0] == k then DeleteKey(keys[1..], k)
    else [keys[0]] + DeleteKey(keys[1..], k)
  }

  lemma {:induction false} DeleteAbsentKey(keys: seq<ApiPath>, k: ApiPath)
    requires k !in keys
    ensures DeleteKey(keys, k) == keys
  {
    if keys != [] {
      DeleteAbsentKey(keys[1..], k);
    }
  }

  /** On a key order with no repeats, deleting a present key closes the gap and keeps every other key in its place in the order. */
  lemma {:induction false} DeleteKeyOrder(keys: seq<ApiPath>, k: ApiPath)
    requires Distinct(keys) && k in keys
    ensures DeleteKey(keys, k) == keys[..IndexOf(keys, k)] + keys[IndexOf(keys, k) + 1..]
  {
    if keys[0] == k {
      assert k !in keys[1..];
      DeleteAbsentKey(keys[1..], k);
    } else {
      assert Distinct(keys[1..]);
      DeleteKeyOrder(keys[1..], k);
      var i := IndexOf(keys, k);
      assert IndexOf(keys[1..], k) == i - 1;
      assert keys[..i] == [keys[0]] + keys[1..][..i - 1];
      assert keys[i + 1..] == keys[1..][i..];
    }
  }

  lemma {:induction false} DeleteKeyKeepsDistinct(keys: seq<ApiPath>, k: ApiPath)
    requires Distinct(keys)
    ensures Distinct(DeleteKey(keys, k))
  {
    if keys != [] {
      assert Distinct(keys[1..]);
      DeleteKeyKeepsDistinct(keys[1..], k);
      assert keys[0] !in keys[1..];
      assert keys[0] !in DeleteKey(keys[1..], k);
    }
  }

  predicate Distinct(keys: seq<ApiPath>) {
    forall i, j :: 0 <= i < j < |keys| ==> keys[i] != keys[j]
  }

  /** The value of `apiResponseListenersMap`: its keys in insertion order and each key's list. */
  datatype ListenerMap = ListenerMap(keys: seq<ApiPath>, lists: map<ApiPath, seq<Listener>>) {
    /** The keys are those of the map, once each, and no registered path has an empty list. */
    ghost predicate Valid() {
      && Distinct(keys)
      && (forall k :: k in lists <==> k in keys)
      && (forall k :: k in lists ==> lists[k] != [])
    }
  }

  const EmptyListenerMap: ListenerMap := ListenerMap([], map[])

  /** `addListener`: `getOrPut(path) { mutableListOf() }.add(listener)`. */
  function Added(m: ListenerMap, path: ApiPath, listener: Listener): ListenerMap {
    if path in m.lists then m.(lists := m.lists[path := m.lists[path] + [listener]])
    else ListenerMap(m.keys + [path], m.lists[path := [listener]])
  }

  /** `removeListener`: remove one occurrence, then drop the entry if its list is empty. */
  function Removed(m: ListenerMap, path: ApiPath, listener: Listener): ListenerMap {
    if path !in m.lists then m
    else
      var rest := RemoveFirst(m.lists[path], listener);
      if rest == [] then ListenerMap(DeleteKey(m.keys, path), m.lists - {path})
      else m.(lists := m.lists[path := rest])
  }

  /**
    Adding keeps the registry valid; the listener goes to the end of its
    path's list (duplicates kept); a new path goes to the end of the key order;
    every other entry is unchanged.
   */
  lemma AddListenerSpec(m: ListenerMap, path: ApiPath, listener: Listener)
    requires m.Valid()
    ensures var m' := Added(m, path, listener);
      && m'.Valid()
      && m'.lists.Keys == m.lists.Keys + {path}
      && m'.lists[path] == (if path in m.lists then m.lists[path] else []) + [listener]
      && m'.keys == (if path in m.lists then m.keys else m.keys + [path])
      && forall k :: k in m.lists && k != path ==> m'.lists[k] == m.lists[k]
  {
  }

  lemma RemoveFirstEmpty(s: seq<Listener>, x: Listener)
    requires s != []
    ensures RemoveFirst(s, x) == [] <==> s == [x]
  {
    if x in s {
      var i := IndexOf(s, x);
      assert |RemoveFirst(s, x)| == |s| - 1;
    }
  }

  /** Removing keeps the registry valid. */
  lemma RemovedIsValid(m: ListenerMap, path: ApiPath, listener: Listener)
    requires m.Valid()
    ensures Removed(m, path, listener).Valid()
  {
    if path in m.lists && RemoveFirst(m.lists[path], listener) == [] {
      DeleteKeyKeepsDistinct(m.keys, path);
    }
  }

  /**
    `removeListener` on a registered path takes out one occurrence of the
    listener and deletes the entry exactly when that empties its list; on an
    unregistered path it changes nothing; other entries never change. The key
    order is kept when the entry survives; a deleted entry's key leaves the
    order and every other key keeps its place.
   */
  lemma RemoveListenerSpec(m: ListenerMap, path: ApiPath, listener: Listener)
    requires m.Valid()
    ensures var m' := Removed(m, path, listener);
      && (path !in m.lists ==> m' == m)
      && (path in m.lists ==> (path !in m'.lists <==> m.lists[path] == [listener]))
      && (path in m'.lists ==> m'.lists[path] == RemoveFirst(m.lists[path], listener))
      && (path in m'.lists ==> multiset(m'.lists[path]) == multiset(m.lists[path]) - multiset{listener})
      && (path in m'.lists ==> m'.keys == m.keys)
      && (path in m.lists && path !in m'.lists ==>
            m'.keys == m.keys[..IndexOf(m.keys, path)] + m.keys[IndexOf(m.keys, path) + 1..])
      && forall k :: k in m.lists && k != path ==> k in m'.lists && m'.lists[k] == m.lists[k]
  {
    if path in m.lists {
      RemoveFirstEmpty(m.lists[path], listener);
      if m.lists[path] == [listener] {
        DeleteKeyOrder(m.keys, path);
      }
    }
  }

  /** Removing a listener just added (and not registered before) restores the registry exactly. */
  lemma AddThenRemove(m: ListenerMap, path: ApiPath, listener: Listener)
    requires m.Valid()
    requires path in m.lists ==> listener !in m.lists[path]
    ensures Removed(Added(m, path, listener), path, listener) == m
  {
    var a := Added(m, path, listener);
    if path in m.lists {
      var s := m.lists[path];
      assert a.lists[path] == s + [listener];
      RemoveFirstAppended(s, listener);
      assert s != [];
      assert Removed(a, path, listener) == a.(lists := a.lists[path := s]);
      assert a.lists[path := s] == m.lists;
    } else {
      assert a.lists[path] == [listener];
      assert RemoveFirst([listener], listener) == [] by {
        assert IndexOf([listener], listener) == 0;
      }
      DeleteAppend(m.keys, path);
      assert a.lists - {path} == m.lists;
    }
  }

  lemma RemoveFirstAppended(s: seq<Listener>, x: Listener)
    requires x !in s
    ensures RemoveFirst(s + [x], x) == s
  {
    var i := IndexOf(s + [x], x);
    assert i == |s|;
    assert (s + [x])[..i] == s;
  }

  lemma {:induction false} DeleteAppend(keys: seq<ApiPath>, k: ApiPath)
    requires k !in keys
    ensures DeleteKey(keys + [k], k) == keys
  {
    if keys == [] {
      assert DeleteKey([k], k) == DeleteKey([], k);
    } else {
      assert (keys + [k])[1..] == keys[1..] + [k];
      DeleteAppend(keys[1..], k);
    }
  }

  // ---------------------------------------------------------------------
  // The interceptor object

  class ApiInterceptor {
    var listenerMap: ListenerMap

    ghost predicate Valid()
      reads this
    {
      listenerMap.Valid()
    }

    constructor ()
      ensures Valid() && listenerMap == EmptyListenerMap
    {
      listenerMap := EmptyListenerMap;
    }

    method AddListener(path: ApiPath, listener: Listener)
      requires Valid()
      modifies this
      ensures Valid()
      ensures listenerMap == Added(old(listenerMap), path, listener)
    {
      // getOrPut(path) { mutableListOf() }
      if path !in listenerMap.lists {
        listenerMap := ListenerMap(listenerMap.keys + [path], listenerMap.lists[path := []]);
      }
      // .add(listener)
      var list := listenerMap.lists[path];
      listenerMap := listenerMap.(lists := listenerMap.lists[path := list + [listener]]);
      AddListenerSpec(old(listenerMap), path, listener);
    }

    method RemoveListener(path: ApiPath, listener: Listener)
      requires Valid()
      modifies this
      ensures Valid()
      ensures listenerMap == Removed(old(listenerMap), path, listener)
    {
      RemovedIsValid(listenerMap, path, listener);
      if path in listenerMap.lists {
        // apiResponseListenersMap[path]?.remove(listener)
        var rest := RemoveFirst(listenerMap.lists[path], listener);
        if rest == [] {
          // the list became empty: the entry is removed
          listenerMap := ListenerMap(DeleteKey(listenerMap.keys, path), listenerMap.lists - {path});
        } else {
          listenerMap := listenerMap.(lists := listenerMap.lists[path := rest]);
        }
      }
    }

    /**
      `intercept`: one `proceed` with the chain's request as it is, whose
      outcome is returned unchanged; a response
      body is delivered, in list order, to every listener of the first matching
      key, a listener that throws included, and delivery goes on after it.
     */
    method Intercept(request: Request, d: Downstream, throwing: set<Listener>)
      returns (result: Outcome, sent: seq<Request>, deliveries: seq<Delivery>)
      requires Valid()
      ensures sent == [request] && result == d(0)
      ensures d(0).Threw? ==> deliveries == []
      ensures d(0).Responded? ==>
        match FindApiPath(listenerMap.keys, NormalizePath(request.url.encodedPath), request.httpMethod)
        case None => deliveries == []
        case Some(key) =>
          && |deliveries| == |listenerMap.lists[key]|
          && forall i :: 0 <= i < |deliveries| ==>
               deliveries[i] == Delivery(listenerMap.lists[key][i], key, d(0).response.body,
                                         listenerMap.lists[key][i] in throwing)
    {
      var path := NormalizePath(request.url.encodedPath);
      var httpMethod := request.httpMethod;
      var proceeded := d(0);
      sent := [request];
      result := proceeded;
      deliveries := [];
      if proceeded.Threw? {
        return;
      }
      var found := FindApiPath(listenerMap.keys, path, httpMethod);
      if found.Some? {
        var apiPath := found.value;
        var networkResponse := proceeded.response.body;
        var listeners := listenerMap.lists[apiPath];
        var i := 0;
        while i < |listeners|
          invariant 0 <= i <= |listeners|
          invariant |deliveries| == i
          invariant forall j :: 0 <= j < i ==>
                      deliveries[j] == Delivery(listeners[j], apiPath, networkResponse, listeners[j] in throwing)
        {
          var listener := listeners[i];
          // tryOrNull: a throwing listener is recorded and delivery continues
          deliveries := deliveries + [Delivery(listener, apiPath, networkResponse, listener in throwing)];
          i := i + 1;
        }
      }
    }
  }
}
