/** The `Array.prototype` searches the handlers use: `find`/`findIndex` and
    `filter`, and the `find` lookups built from them. */
module Arrays {
  import opened Wrappers
  import opened Entities

  /** `findIndex`: the first index whose element satisfies `p`, if any. */
  function FindIndex<T>(s: seq<T>, p: T -> bool): (r: Option<nat>)
    ensures r.Some? ==> r.value < |s| && p(s[r.value])
    ensures r.Some? ==> forall j :: 0 <= j < r.value ==> !p(s[j])
    ensures r.None? <==> forall j :: 0 <= j < |s| ==> !p(s[j])
  {
    if s == [] then None
    else if p(s[0]) then Some(0)
    else match FindIndex(s[1..], p)
      case None => None
      case Some(k) => Some(k + 1)
  }

  /** `filter`: keeps exactly the elements that satisfy `p`, each as often as
      it occurs in `s`. */
  function Filter<T(!new)>(s: seq<T>, p: T -> bool): (r: seq<T>)
    ensures |r| <= |s|
    ensures forall k :: 0 <= k < |r| ==> p(r[k])
    ensures forall x :: x in r <==> x in s && p(x)
    ensures forall x :: multiset(r)[x] == if p(x) then multiset(s)[x] else 0
  {
    if s == [] then []
    else
      var rest := Filter(s[1..], p);
      assert s == [s[0]] + s[1..];
      assert multiset(s) == multiset{s[0]} + multiset(s[1..]);
      if p(s[0]) then [s[0]] + rest else rest
  }

  /** `map` with a callback that throws on some elements (the handlers read
      a field of a `find` that came back `undefined`): `None` when the
      callback fails on any element, otherwise the mapped sequence. */
  function MapAll<T, U>(s: seq<T>, f: T -> Option<U>): (r: Option<seq<U>>)
    ensures r.Some? <==> forall k :: 0 <= k < |s| ==> f(s[k]).Some?
    ensures r.Some? ==> |r.value| == |s|
    ensures r.Some? ==> forall k :: 0 <= k < |s| ==> f(s[k]) == Some(r.value[k])
  {
    if s == [] then Some([])
    else match (f(s[0]), MapAll(s[1..], f))
      case (Some(x), Some(rest)) => Some([x] + rest)
      case _ => None
  }

  /** `filter` with a callback that may throw: the first element whose test
      throws ends the call with that error; otherwise the elements whose test
      holds are kept. */
  function FilterOrThrow<T(!new), E>(s: seq<T>, test: T -> Result<bool, E>): (r: Result<seq<T>, E>)
    ensures r.Success? <==> forall k :: 0 <= k < |s| ==> test(s[k]).Success?
    ensures r.Failure? ==> exists k :: 0 <= k < |s| && test(s[k]) == Failure(r.error)
    ensures r.Success? ==> forall x :: x in r.value ==> x in s && test(x) == Success(true)
    ensures r.Success? ==> r.value == Filter(s, (x: T) => test(x) == Success(true))
  {
    if s == [] then Success([])
    else match test(s[0])
      case Failure(e) => Failure(e)
      case Success(keep) =>
        match FilterOrThrow(s[1..], test)
        case Failure(e) => Failure(e)
        case Success(rest) => Success(if keep then [s[0]] + rest else rest)
  }

  /** `users.find(u => u.id === id)`. */
  function UserById(users: seq<User>, id: UserId): Option<nat> {
    FindIndex(users, (u: User) => u.id == id)
  }

  /** `users.find(u => u.username === name)`. */
  function UserByName(users: seq<User>, name: string): Option<nat> {
    FindIndex(users, (u: User) => u.username == name)
  }

  /** `users.find(u => u.userid === code)`. */
  function UserByCode(users: seq<User>, code: string): Option<nat> {
    FindIndex(users, (u: User) => u.code == code)
  }

  /** `friendRequests.findIndex(req => req.id === requestId)`. */
  function RequestById(reqs: seq<FriendRequest>, requestId: string): Option<nat> {
    FindIndex(reqs, (r: FriendRequest) => r.id == requestId)
  }
}
