/**
 * The collection queries the handlers issue: `findOne`, `findById` and
 * `find({ owner })`. A `findOne` with no sort returns the first matching
 * document in insertion order; that is `FirstMatch`.
 */
module Queries {
  import opened Wrappers
  import opened Schema

  /** The index of the first element of `s` satisfying `p`, if there is one. */
  function FirstMatch<T>(s: seq<T>, p: T -> bool): (r: Option<nat>)
    ensures r.None? <==> forall i :: 0 <= i < |s| ==> !p(s[i])
    ensures r.Some? ==> r.value < |s| && p(s[r.value])
    ensures r.Some? ==> forall j :: 0 <= j < r.value ==> !p(s[j])
    decreases |s|
  {
    if |s| == 0 then None
    else if p(s[0]) then Some(0)
    else
      var rest := FirstMatch(s[1..], p);
      assert forall i :: 1 <= i < |s| ==> s[i] == s[1..][i - 1];
      match rest
      case None => None
      case Some(k) => Some(k + 1)
  }

  /** `Link.findOne({ shortCode: code })`: the first link with that code. */
  function FindLink(links: seq<Link>, code: string): (r: Option<nat>)
    ensures r.None? <==> forall i :: 0 <= i < |links| ==> links[i].shortCode != code
    ensures r.Some? ==> r.value < |links| && links[r.value].shortCode == code
    ensures r.Some? ==> forall j :: 0 <= j < r.value ==> links[j].shortCode != code
  {
    FirstMatch(links, (l: Link) => l.shortCode == code)
  }

  /** `User.findOne({ username: name })`: the first user with that name. */
  function FindUserNamed(users: seq<User>, name: string): (r: Option<nat>)
    ensures r.None? <==> forall i :: 0 <= i < |users| ==> users[i].username != name
    ensures r.Some? ==> r.value < |users| && users[r.value].username == name
    ensures r.Some? ==> forall j :: 0 <= j < r.value ==> users[j].username != name
  {
    FirstMatch(users, (u: User) => u.username == name)
  }

  /** `User.findById(id)`, the lookup inside `findByIdAndUpdate` and `findByIdAndDelete`. */
  function FindUserById(users: seq<User>, id: UserId): (r: Option<nat>)
    ensures r.None? <==> forall i :: 0 <= i < |users| ==> users[i].id != id
    ensures r.Some? ==> r.value < |users| && users[r.value].id == id
    ensures r.Some? ==> forall j :: 0 <= j < r.value ==> users[j].id != id
  {
    FirstMatch(users, (u: User) => u.id == id)
  }

  /** The unique index on `username`. */
  ghost predicate UsernamesUnique(users: seq<User>)
  {
    forall i, j :: 0 <= i < |users| && 0 <= j < |users| && i != j ==> users[i].username != users[j].username
  }

  /** `_id`s are distinct. */
  ghost predicate IdsDistinct(users: seq<User>)
  {
    forall i, j :: 0 <= i < |users| && 0 <= j < |users| && i != j ==> users[i].id != users[j].id
  }

  /** No two links share a `shortCode`, whoever owns them. */
  ghost predicate CodesUnique(links: seq<Link>)
  {
    forall i, j :: 0 <= i < |links| && 0 <= j < |links| && i != j ==> links[i].shortCode != links[j].shortCode
  }

  /** With unique usernames, the `findOne` by name finds the one user of that name. */
  lemma FindUniqueName(users: seq<User>, k: nat)
    requires UsernamesUnique(users) && k < |users|
    ensures FindUserNamed(users, users[k].username) == Some(k)
  {
  }

  /** With distinct ids, `findById` finds the one user with that id. */
  lemma FindUniqueId(users: seq<User>, k: nat)
    requires IdsDistinct(users) && k < |users|
    ensures FindUserById(users, users[k].id) == Some(k)
  {
  }

  /** `Link.find({ owner })`: the owner's links, in store order. */
  function OwnedBy(links: seq<Link>, owner: string): (r: seq<Link>)
    ensures |r| <= |links|
    ensures forall l :: l in r <==> l in links && l.owner == owner
    ensures forall l :: multiset(r)[l] == if l.owner == owner then multiset(links)[l] else 0
    decreases |links|
  {
    if |links| == 0 then []
    else
      var rest := OwnedBy(links[1..], owner);
      assert forall l :: l in links <==> l == links[0] || l in links[1..];
      assert links == [links[0]] + links[1..];
      assert multiset(links) == multiset([links[0]]) + multiset(links[1..]);
      if links[0].owner == owner then [links[0]] + rest else rest
  }
}
