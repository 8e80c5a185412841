/** Following a user from their profile page (`UserProfile.handleFollow`):
    two relationship documents and two denormalised counters, written one
    after the other, and the page's local follower count. */
module Follow {
  import opened Base
  import opened Model

  /** The `users` collection. */
  type Users = map<Uid, Profile>

  /** The stored follow graph: profiles, the `users/{t}/followers/{f}`
      documents as pairs (t, f), and the `users/{f}/following/{t}`
      documents as pairs (f, t). */
  datatype Graph = Graph(users: Users, followers: set<(Uid, Uid)>, following: set<(Uid, Uid)>)

  /** The profile page's local state. */
  datatype FollowView = FollowView(isFollowing: bool, followerCount: int, followLoading: bool)

  /** The two counters of a profile. */
  datatype Counter = FollowerCount | FollowingCount

  /** Value shown for a counter: a missing field reads as 0. */
  function Shown(p: Profile, c: Counter): int {
    match c
    case FollowerCount => CountOrZero(p.followerCount)
    case FollowingCount => CountOrZero(p.followingCount)
  }

  /** The page's counts when the profile loads. */
  function LoadedCounts(p: Profile): (r: (int, int))
    ensures p.followerCount.None? ==> r.0 == 0
    ensures p.followingCount.None? ==> r.1 == 0
    ensures p.followerCount.Some? ==> r.0 == p.followerCount.value
    ensures p.followingCount.Some? ==> r.1 == p.followingCount.value
  {
    (Shown(p, FollowerCount), Shown(p, FollowingCount))
  }

  /** `updateDoc(users/{id}, {counter: increment(delta)})`: `None` when the
      document does not exist, where the store rejects the update. */
  function Bump(users: Users, id: Uid, c: Counter, delta: int): (r: Option<Users>)
    ensures id !in users <==> r.None?
    ensures r.Some? ==>
              && r.value.Keys == users.Keys
              && Shown(r.value[id], c) == Shown(users[id], c) + delta
              && (forall k :: k in users && k != id ==> r.value[k] == users[k])
  {
    if id !in users then None
    else match c
      case FollowerCount =>
        Some(users[id := users[id].(followerCount := Increment(users[id].followerCount, delta))])
      case FollowingCount =>
        Some(users[id := users[id].(followingCount := Increment(users[id].followingCount, delta))])
  }

  /** Result of a click on the follow button. */
  datatype FollowOutcome = FollowOutcome(graph: Graph, view: FollowView)

  /** `handleFollow` of user `me` on the profile of `target`. Nothing
      happens when signed out or while a previous click is in flight.
      Otherwise the steps are: relationship document in `target`'s
      followers (0), in `me`'s following (1), `target`'s follower counter
      (2), `me`'s following counter (3); setting them on a follow, deleting
      them and decrementing on an unfollow. A step fails when `fault` says
      so or, for a counter, when the profile document is missing; earlier
      writes stay and the local state is only released from loading. */
  function HandleFollow(g: Graph, me: Option<Uid>, target: Uid, v: FollowView, fault: Fault): (o: FollowOutcome)
    ensures me.Some? ==> forall e :: e != (target, me.value) ==> (e in o.graph.followers <==> e in g.followers)
    ensures me.Some? ==> forall e :: e != (me.value, target) ==> (e in o.graph.following <==> e in g.following)
    ensures o.graph.users.Keys == g.users.Keys
    ensures o.view.isFollowing != v.isFollowing ==>
              && !o.view.followLoading && me.Some?
              && ((target, me.value) in o.graph.followers <==> o.view.isFollowing)
  {
    if me.None? || v.followLoading then FollowOutcome(g, v)
    else
      var f := me.value;
      var delta := if v.isFollowing then -1 else 1;
      var g0 := if v.isFollowing then g.(followers := g.followers - {(target, f)})
                else g.(followers := g.followers + {(target, f)});
      var g1 := if v.isFollowing then g0.(following := g0.following - {(f, target)})
                else g0.(following := g0.following + {(f, target)});
      var failed := v.(followLoading := false);
      if !fault.Allows(0) then FollowOutcome(g, failed)
      else if !fault.Allows(1) then FollowOutcome(g0, failed)
      else match Bump(g1.users, target, FollowerCount, delta)
        case None => FollowOutcome(g1, failed)
        case Some(u2) =>
          var g2 := g1.(users := u2);
          if !fault.Allows(2) then FollowOutcome(g1, failed)
          else match Bump(u2, f, FollowingCount, delta)
            case None => FollowOutcome(g2, failed)
            case Some(u3) =>
              if !fault.Allows(3) then FollowOutcome(g2, failed)
              else FollowOutcome(g2.(users := u3),
                                 FollowView(!v.isFollowing, v.followerCount + delta, false))
  }

  /** A click while signed out, or while a follow is in flight, does
      nothing at all. */
  lemma FollowGuardNoop(g: Graph, me: Option<Uid>, target: Uid, v: FollowView, fault: Fault)
    requires me.None? || v.followLoading
    ensures HandleFollow(g, me, target, v, fault) == FollowOutcome(g, v)
  {
  }

  /** Following someone else creates both relationship documents, raises
      both counters by one, and on the page flips the button and adds one to
      the follower count. */
  lemma FollowWrites(g: Graph, me: Uid, target: Uid, v: FollowView)
    requires !v.isFollowing && !v.followLoading
    requires me != target && me in g.users && target in g.users
    ensures var o := HandleFollow(g, Some(me), target, v, NoFault);
            && o.graph.followers == g.followers + {(target, me)}
            && o.graph.following == g.following + {(me, target)}
            && o.graph.users.Keys == g.users.Keys
            && Shown(o.graph.users[target], FollowerCount) == Shown(g.users[target], FollowerCount) + 1
            && Shown(o.graph.users[me], FollowingCount) == Shown(g.users[me], FollowingCount) + 1
            && o.view == FollowView(true, v.followerCount + 1, false)
  {
  }

  /** Unfollowing deletes both relationship documents, lowers both counters
      by one, and on the page flips the button back and subtracts one. */
  lemma UnfollowWrites(g: Graph, me: Uid, target: Uid, v: FollowView)
    requires v.isFollowing && !v.followLoading
    requires me != target && me in g.users && target in g.users
    ensures var o := HandleFollow(g, Some(me), target, v, NoFault);
            && o.graph.followers == g.followers - {(target, me)}
            && o.graph.following == g.following - {(me, target)}
            && o.graph.users.Keys == g.users.Keys
            && Shown(o.graph.users[target], FollowerCount) == Shown(g.users[target], FollowerCount) - 1
            && Shown(o.graph.users[me], FollowingCount) == Shown(g.users[me], FollowingCount) - 1
            && o.view == FollowView(false, v.followerCount - 1, false)
  {
  }

  /** Profiles of users other than the two involved never change. */
  lemma FollowTouchesTwoProfiles(g: Graph, me: Option<Uid>, target: Uid, v: FollowView, fault: Fault, k: Uid)
    requires k in g.users && k != target && (me.Some? ==> k != me.value)
    ensures var o := HandleFollow(g, me, target, v, fault);
            k in o.graph.users && o.graph.users[k] == g.users[k]
  {
  }

  /** A follow followed by an unfollow, starting from no relationship,
      restores both relationship sets, both counters (a field that was
      missing is left at 0), every other profile field, and the page. */
  lemma FollowThenUnfollowRestores(g: Graph, me: Uid, target: Uid, v: FollowView)
    requires !v.isFollowing && !v.followLoading
    requires me != target && me in g.users && target in g.users
    requires (target, me) !in g.followers && (me, target) !in g.following
    ensures var o1 := HandleFollow(g, Some(me), target, v, NoFault);
            var o2 := HandleFollow(o1.graph, Some(me), target, o1.view, NoFault);
            && o2.graph.followers == g.followers
            && o2.graph.following == g.following
            && o2.graph.users.Keys == g.users.Keys
            && o2.graph.users[target] == g.users[target].(followerCount := Some(Shown(g.users[target], FollowerCount)))
            && o2.graph.users[me] == g.users[me].(followingCount := Some(Shown(g.users[me], FollowingCount)))
            && o2.view == v
  {
    var o1 := HandleFollow(g, Some(me), target, v, NoFault);
    FollowWrites(g, me, target, v);
    UnfollowWrites(o1.graph, me, target, o1.view);
    assert g.followers + {(target, me)} - {(target, me)} == g.followers;
    assert g.following + {(me, target)} - {(me, target)} == g.following;
  }

  /** When the target's profile document is missing, a follow stores both
      relationship documents but no counter, and the page does not flip. */
  lemma FollowMissingTarget(g: Graph, me: Uid, target: Uid, v: FollowView)
    requires !v.isFollowing && !v.followLoading && target !in g.users
    ensures var o := HandleFollow(g, Some(me), target, v, NoFault);
            && (target, me) in o.graph.followers && (me, target) in o.graph.following
            && o.graph.users == g.users
            && o.view == v
  {
  }
}
