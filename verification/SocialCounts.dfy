/** Follow and unfollow transactions with cached follower and following counts. */
module SocialCounts {
  import opened Wrappers
  import opened Sequences

  datatype User = User(stellarAddress: string, isPrivate: bool, followersCount: int, followingCount: int)

  type Edge = (string, string)

  /** The users table (ids in table order) and the follow edges (follower, target). */
  datatype Db = Db(ids: seq<string>, rows: map<string, User>, edges: set<Edge>)

  datatype SocialError = SelfFollow | UserNotFound | PrivateFeed

  datatype SocialState =
    SocialState(targetAddress: string, isFollowing: bool, isPrivate: bool, followers: int, following: int)

  /** `loadUser`: the first user with the address. */
  function FindUser(ids: seq<string>, rows: map<string, User>, address: string): (id: Option<string>)
    ensures id.Some? ==> id.value in ids && id.value in rows && rows[id.value].stellarAddress == address
  {
    if ids == [] then None
    else if ids[0] in rows && rows[ids[0]].stellarAddress == address then Some(ids[0])
    else FindUser(ids[1..], rows, address)
  }

  /** Some user has the address. */
  ghost predicate Known(db: Db, address: string) {
    exists u :: u in db.ids && u in db.rows && db.rows[u].stellarAddress == address
  }

  /** u is the first user with the address. */
  ghost predicate FirstWith(db: Db, address: string, u: string) {
    exists i :: 0 <= i < |db.ids| && db.ids[i] == u && u in db.rows && db.rows[u].stellarAddress == address &&
                forall j :: 0 <= j < i && db.ids[j] in db.rows ==> db.rows[db.ids[j]].stellarAddress != address
  }

  /** The lookup finds the first user with the address, and nothing exactly when nobody has it. */
  lemma {:induction false} FindUserExactly(db: Db, address: string)
    ensures FindUser(db.ids, db.rows, address).Some? <==> Known(db, address)
    ensures Known(db, address) ==> FirstWith(db, address, FindUser(db.ids, db.rows, address).value)
    decreases |db.ids|
  {
    if db.ids != [] {
      var ids, found, rest := db.ids, FindUser(db.ids, db.rows, address), db.(ids := db.ids[1..]);
      FindUserExactly(rest, address);
      assert ids == [ids[0]] + ids[1..];
      if ids[0] in db.rows && db.rows[ids[0]].stellarAddress == address {
        assert ids[0] == found.value;
      } else if found.Some? {
        var i :| 0 <= i < |rest.ids| && rest.ids[i] == found.value &&
          forall j :: 0 <= j < i && rest.ids[j] in db.rows ==> db.rows[rest.ids[j]].stellarAddress != address;
        FoundLater(db, address, found.value, i);
      }
    }
  }

  lemma FoundLater(db: Db, address: string, u: string, i: nat)
    requires i + 1 < |db.ids| && db.ids[1..][i] == u && u in db.rows && db.rows[u].stellarAddress == address
    requires forall j :: 0 <= j < i && db.ids[1..][j] in db.rows ==> db.rows[db.ids[1..][j]].stellarAddress != address
    requires db.ids[0] in db.rows ==> db.rows[db.ids[0]].stellarAddress != address
    ensures FirstWith(db, address, u)
  {
    assert db.ids[i + 1] == u;
    forall j | 0 <= j < i + 1 && db.ids[j] in db.rows ensures db.rows[db.ids[j]].stellarAddress != address {
      if j > 0 {
        assert db.ids[1..][j - 1] == db.ids[j];
      }
    }
  }

  function Bump(rows: map<string, User>, actor: string, target: string): (r: map<string, User>)
    requires actor in rows && target in rows
  {
    var r := rows[actor := rows[actor].(followingCount := rows[actor].followingCount + 1)];
    r[target := r[target].(followersCount := r[target].followersCount + 1)]
  }

  /** `GREATEST(n - 1, 0)` */
  function Lowered(n: int): (m: int) { if n - 1 > 0 then n - 1 else 0 }

  function Drop(rows: map<string, User>, actor: string, target: string): (r: map<string, User>)
    requires actor in rows && target in rows
  {
    var r := rows[actor := rows[actor].(followingCount := Lowered(rows[actor].followingCount))];
    r[target := r[target].(followersCount := Lowered(r[target].followersCount))]
  }

  /** The two users of a request, or the error that ends it. */
  function Ends(db: Db, actor: string, target: string): (r: Result<Edge, SocialError>)
    ensures r.Success? ==> r.value.0 in db.rows && r.value.1 in db.rows && r.value.0 in db.ids && r.value.1 in db.ids
    ensures r.Success? ==> r.value.0 != r.value.1
  {
    var a, t := FindUser(db.ids, db.rows, actor), FindUser(db.ids, db.rows, target);
    if actor == target then Failure(SelfFollow)
    else if a.None? || t.None? then Failure(UserNotFound)
    else Success((a.value, t.value))
  }

  function FollowEnds(db: Db, actor: string, target: string): (r: Result<Edge, SocialError>)
    ensures r.Success? ==> Ends(db, actor, target) == r
  {
    var e := Ends(db, actor, target);
    if e.Success? && db.rows[e.value.1].isPrivate then Failure(PrivateFeed) else e
  }

  /** The database after a follow request; a failed one changes nothing. */
  function Follow(db: Db, actor: string, target: string): (db': Db) {
    var e := FollowEnds(db, actor, target);
    if e.Failure? || e.value in db.edges then db
    else Db(db.ids, Bump(db.rows, e.value.0, e.value.1), db.edges + {e.value})
  }

  function Unfollow(db: Db, actor: string, target: string): (db': Db) {
    var e := Ends(db, actor, target);
    if e.Failure? || e.value !in db.edges then db
    else Db(db.ids, Drop(db.rows, e.value.0, e.value.1), db.edges - {e.value})
  }

  function StateOf(db: Db, e: Edge): (s: SocialState)
    requires e.1 in db.rows
  {
    var t := db.rows[e.1];
    SocialState(t.stellarAddress, e in db.edges, t.isPrivate, t.followersCount, t.followingCount)
  }

  /** The rows after adding d to the actor's following count and the target's followers count. */
  ghost predicate Moved(before: map<string, User>, after: map<string, User>, actor: string, target: string, d: int) {
    && after.Keys == before.Keys
    && forall u :: u in before ==> after[u] == before[u].(
         followingCount := before[u].followingCount + if u == actor then d else 0,
         followersCount := before[u].followersCount + if u == target then d else 0)
  }

  /** Which requests fail and how: a follow of a private user does, of a public one does not. */
  lemma FollowExactly(db: Db, actor: string, target: string) returns (a: string, t: string)
    ensures actor == target ==> FollowEnds(db, actor, target) == Failure(SelfFollow)
    ensures actor != target && !(Known(db, actor) && Known(db, target)) ==>
              FollowEnds(db, actor, target) == Failure(UserNotFound)
    ensures actor != target && Known(db, actor) && Known(db, target) ==>
              && FirstWith(db, actor, a) && FirstWith(db, target, t)
              && (if db.rows[t].isPrivate then FollowEnds(db, actor, target) == Failure(PrivateFeed)
                  else FollowEnds(db, actor, target) == Success((a, t)))
    ensures FollowEnds(db, actor, target).Failure? ==> Follow(db, actor, target) == db
    ensures FollowEnds(db, actor, target).Success? ==>
              var db' := Follow(db, actor, target);
              && db'.ids == db.ids && db'.edges == db.edges + {(a, t)}
              && Moved(db.rows, db'.rows, a, t, if (a, t) in db.edges then 0 else 1)
  {
    FindUserExactly(db, actor);
    FindUserExactly(db, target);
    var e := Ends(db, actor, target);
    a, t := if e.Success? then e.value.0 else "", if e.Success? then e.value.1 else "";
    if e.Success? {
      BumpExactly(db.rows, a, t);
    }
  }

  lemma BumpExactly(rows: map<string, User>, a: string, t: string)
    requires a in rows && t in rows
    ensures Moved(rows, Bump(rows, a, t), a, t, 1)
  {
  }

  /** One less, but never below zero. */
  predicate OneLess(n: int, m: int) { m == if n >= 1 then n - 1 else 0 }

  /** An unfollow asks the same, except for privacy, and takes the edge and its counts away. */
  lemma UnfollowExactly(db: Db, actor: string, target: string) returns (a: string, t: string)
    ensures actor == target ==> Ends(db, actor, target) == Failure(SelfFollow)
    ensures actor != target && !(Known(db, actor) && Known(db, target)) ==>
              Ends(db, actor, target) == Failure(UserNotFound)
    ensures actor != target && Known(db, actor) && Known(db, target) ==>
              FirstWith(db, actor, a) && FirstWith(db, target, t) && Ends(db, actor, target) == Success((a, t))
    ensures Ends(db, actor, target).Failure? ==> Unfollow(db, actor, target) == db
    ensures Ends(db, actor, target).Success? && (a, t) in db.edges ==>
              var db' := Unfollow(db, actor, target);
              && OneLess(db.rows[a].followingCount, db'.rows[a].followingCount)
              && OneLess(db.rows[t].followersCount, db'.rows[t].followersCount)
    ensures Agree(db) && Ends(db, actor, target).Success? ==>
              var db' := Unfollow(db, actor, target);
              && db'.ids == db.ids && db'.edges == db.edges - {(a, t)}
              && Moved(db.rows, db'.rows, a, t, if (a, t) in db.edges then -1 else 0)
  {
    FindUserExactly(db, actor);
    FindUserExactly(db, target);
    var e := Ends(db, actor, target);
    a, t := if e.Success? then e.value.0 else "", if e.Success? then e.value.1 else "";
    if Agree(db) && e.Success? && e.value in db.edges {
      DropMoves(db, e.value);
    }
  }

  lemma DropMoves(db: Db, e: Edge)
    requires Agree(db) && e in db.edges && e.0 != e.1
    ensures Moved(db.rows, Drop(db.rows, e.0, e.1), e.0, e.1, -1)
  {
    ClampNeverClips(db, e);
    DropExactly(db.rows, e.0, e.1);
  }

  lemma DropExactly(rows: map<string, User>, a: string, t: string)
    requires a in rows && t in rows && a != t && rows[a].followingCount >= 1 && rows[t].followersCount >= 1
    ensures Moved(rows, Drop(rows, a, t), a, t, -1)
  {
  }

  // ---------------------------------------------------------------------
  // Agreement of counts and edges
  // ---------------------------------------------------------------------

  ghost function Into(edges: set<Edge>, u: string): (s: set<Edge>) { set e | e in edges && e.1 == u }

  ghost function OutOf(edges: set<Edge>, u: string): (s: set<Edge>) { set e | e in edges && e.0 == u }

  ghost predicate CountsAgree(db: Db, u: string) {
    u in db.rows && db.rows[u].followersCount == |Into(db.edges, u)| &&
      db.rows[u].followingCount == |OutOf(db.edges, u)|
  }

  /** Every cached count is the number of edges it stands for. */
  ghost predicate Agree(db: Db) {
    && Distinct(db.ids) && (forall u :: u in db.ids <==> u in db.rows)
    && (forall e :: e in db.edges ==> e.0 in db.rows && e.1 in db.rows)
    && (forall u :: u in db.rows ==> CountsAgree(db, u))
  }

  class SocialRepository {
    var ids: seq<string>
    var rows: map<string, User>
    var edges: set<Edge>

    ghost function Data(): (db: Db)
      reads this
    {
      Db(ids, rows, edges)
    }

    method LoadUser(address: string) returns (id: Option<string>)
      ensures id == FindUser(ids, rows, address)
    {
      id := FindUser(ids, rows, address);
    }

    method FollowUser(actorAddress: string, targetAddress: string) returns (r: Result<SocialState, SocialError>)
      modifies this
      ensures Data() == Follow(old(Data()), actorAddress, targetAddress) && (Agree(old(Data())) ==> Agree(Data()))
      ensures r.Failure? <==> FollowEnds(old(Data()), actorAddress, targetAddress).Failure?
      ensures r.Failure? ==> r.error == FollowEnds(old(Data()), actorAddress, targetAddress).error
      ensures r.Success? ==>
        var e := FollowEnds(old(Data()), actorAddress, targetAddress).value;
        && e.1 in rows && r.value == StateOf(Data(), e)
        && r.value.isFollowing && r.value.targetAddress == targetAddress
        && r.value.followers == rows[e.1].followersCount && r.value.following == rows[e.1].followingCount
        && !r.value.isPrivate
    {
      if Agree(Data()) {
        FollowAgrees(Data(), actorAddress, targetAddress);
      }
      if actorAddress == targetAddress {
        return Failure(SelfFollow);
      }
      var actor := LoadUser(actorAddress);
      if actor.None? {
        return Failure(UserNotFound);
      }
      var target := LoadUser(targetAddress);
      if target.None? {
        return Failure(UserNotFound);
      }
      var e := (actor.value, target.value);
      if rows[e.1].isPrivate {
        return Failure(PrivateFeed);
      }
      if e !in edges {
        edges := edges + {e};
        rows := Bump(rows, e.0, e.1);
      }
      r := Success(StateOf(Db(ids, rows, edges), e));
    }

    method UnfollowUser(actorAddress: string, targetAddress: string) returns (r: Result<SocialState, SocialError>)
      modifies this
      ensures Data() == Unfollow(old(Data()), actorAddress, targetAddress) && (Agree(old(Data())) ==> Agree(Data()))
      ensures r.Failure? <==> Ends(old(Data()), actorAddress, targetAddress).Failure?
      ensures r.Failure? ==> r.error == Ends(old(Data()), actorAddress, targetAddress).error
      ensures r.Success? ==>
        var e := Ends(old(Data()), actorAddress, targetAddress).value;
        && e.1 in rows && r.value == StateOf(Data(), e)
        && !r.value.isFollowing && r.value.targetAddress == targetAddress
        && r.value.followers == rows[e.1].followersCount && r.value.following == rows[e.1].followingCount
        && r.value.isPrivate == rows[e.1].isPrivate
    {
      if Agree(Data()) {
        UnfollowAgrees(Data(), actorAddress, targetAddress);
      }
      if actorAddress == targetAddress {
        return Failure(SelfFollow);
      }
      var actor := LoadUser(actorAddress);
      if actor.None? {
        return Failure(UserNotFound);
      }
      var target := LoadUser(targetAddress);
      if target.None? {
        return Failure(UserNotFound);
      }
      var e := (actor.value, target.value);
      if e in edges {
        edges := edges - {e};
        rows := Drop(rows, e.0, e.1);
      }
      r := Success(StateOf(Db(ids, rows, edges), e));
    }
  }

  lemma AddInto(edges: set<Edge>, e: Edge, u: string)
    requires e !in edges
    ensures |Into(edges + {e}, u)| == |Into(edges, u)| + if u == e.1 then 1 else 0
  {
    assert Into(edges + {e}, u) == if u == e.1 then Into(edges, u) + {e} else Into(edges, u);
  }

  lemma AddOutOf(edges: set<Edge>, e: Edge, u: string)
    requires e !in edges
    ensures |OutOf(edges + {e}, u)| == |OutOf(edges, u)| + if u == e.0 then 1 else 0
  {
    assert OutOf(edges + {e}, u) == if u == e.0 then OutOf(edges, u) + {e} else OutOf(edges, u);
  }

  lemma AddEdge(edges: set<Edge>, e: Edge, u: string)
    requires e !in edges
    ensures |Into(edges + {e}, u)| == |Into(edges, u)| + if u == e.1 then 1 else 0
    ensures |OutOf(edges + {e}, u)| == |OutOf(edges, u)| + if u == e.0 then 1 else 0
  {
    AddInto(edges, e, u);
    AddOutOf(edges, e, u);
  }

  lemma RemoveEdge(edges: set<Edge>, e: Edge, u: string)
    requires e in edges
    ensures |Into(edges, u)| == |Into(edges - {e}, u)| + if u == e.1 then 1 else 0
    ensures |OutOf(edges, u)| == |OutOf(edges - {e}, u)| + if u == e.0 then 1 else 0
  {
    AddEdge(edges - {e}, e, u);
    assert edges - {e} + {e} == edges;
  }

  lemma FollowAgrees(db: Db, actor: string, target: string)
    requires Agree(db)
    ensures Agree(Follow(db, actor, target))
  {
    var e, db' := FollowEnds(db, actor, target), Follow(db, actor, target);
    if e.Success? && e.value !in db.edges {
      forall u | u in db'.rows ensures CountsAgree(db', u) {
        assert CountsAgree(db, u);
        AddEdge(db.edges, e.value, u);
      }
    }
  }

  /** The edge being removed is counted at both ends, so the clamp at zero never applies. */
  lemma ClampNeverClips(db: Db, e: Edge)
    requires Agree(db) && e in db.edges
    ensures db.rows[e.0].followingCount >= 1 && db.rows[e.1].followersCount >= 1
  {
    assert CountsAgree(db, e.0) && CountsAgree(db, e.1);
    assert e in OutOf(db.edges, e.0) && e in Into(db.edges, e.1);
  }

  lemma UnfollowAgrees(db: Db, actor: string, target: string)
    requires Agree(db)
    ensures Agree(Unfollow(db, actor, target))
  {
    var e, db' := Ends(db, actor, target), Unfollow(db, actor, target);
    if e.Success? && e.value in db.edges {
      ClampNeverClips(db, e.value);
      forall u | u in db'.rows ensures CountsAgree(db', u) {
        assert CountsAgree(db, u);
        RemoveEdge(db.edges, e.value, u);
      }
    }
  }

  // ---------------------------------------------------------------------
  // Runs
  // ---------------------------------------------------------------------

  datatype Request = FollowRequest(actor: string, target: string) | UnfollowRequest(actor: string, target: string)

  function Apply(db: Db, r: Request): (db': Db) {
    match r
    case FollowRequest(a, t) => Follow(db, a, t)
    case UnfollowRequest(a, t) => Unfollow(db, a, t)
  }

  function After(db: Db, run: seq<Request>): (db': Db) {
    if run == [] then db else Apply(After(db, run[..|run| - 1]), run[|run| - 1])
  }

  /** Every sequence of requests keeps every cached count exact. */
  lemma {:induction false} RunAgrees(db: Db, run: seq<Request>)
    requires Agree(db)
    ensures Agree(After(db, run)) && After(db, run).ids == db.ids
  {
    if run != [] {
      var init, r := run[..|run| - 1], run[|run| - 1];
      RunAgrees(db, init);
      FollowAgrees(After(db, init), r.actor, r.target);
      UnfollowAgrees(After(db, init), r.actor, r.target);
    }
  }

  function Followers(db: Db): (w: string -> int) {
    (u: string) => if u in db.rows then db.rows[u].followersCount else 0
  }

  function Following(db: Db): (w: string -> int) {
    (u: string) => if u in db.rows then db.rows[u].followingCount else 0
  }

  ghost function EdgesInto(edges: set<Edge>, us: seq<string>): (s: set<Edge>) { set e | e in edges && e.1 in us }

  ghost function EdgesOutOf(edges: set<Edge>, us: seq<string>): (s: set<Edge>) { set e | e in edges && e.0 in us }

  lemma IntoLast(edges: set<Edge>, us: seq<string>)
    requires us != [] && Distinct(us)
    ensures |EdgesInto(edges, us)| == |EdgesInto(edges, us[..|us| - 1])| + |Into(edges, us[|us| - 1])|
  {
    var init, last := us[..|us| - 1], us[|us| - 1];
    DropLast(us);
    assert EdgesInto(edges, us) == EdgesInto(edges, init) + Into(edges, last);
    assert EdgesInto(edges, init) !! Into(edges, last);
  }

  lemma OutOfLast(edges: set<Edge>, us: seq<string>)
    requires us != [] && Distinct(us)
    ensures |EdgesOutOf(edges, us)| == |EdgesOutOf(edges, us[..|us| - 1])| + |OutOf(edges, us[|us| - 1])|
  {
    var init, last := us[..|us| - 1], us[|us| - 1];
    DropLast(us);
    assert EdgesOutOf(edges, us) == EdgesOutOf(edges, init) + OutOf(edges, last);
    assert EdgesOutOf(edges, init) !! OutOf(edges, last);
  }

  lemma {:induction false} PartialTotals(db: Db, us: seq<string>)
    requires Distinct(us) && forall u :: u in us ==> CountsAgree(db, u)
    ensures Sum(us, Followers(db)) == |EdgesInto(db.edges, us)|
    ensures Sum(us, Following(db)) == |EdgesOutOf(db.edges, us)|
  {
    if us != [] {
      PartialTotals(db, us[..|us| - 1]);
      IntoLast(db.edges, us);
      OutOfLast(db.edges, us);
      assert us[|us| - 1] in us;
    }
  }

  /** After any run, both column totals are the number of edges. */
  lemma TotalsAreEdges(db: Db, run: seq<Request>)
    requires Agree(db)
    ensures var end := After(db, run);
      Sum(end.ids, Followers(end)) == |end.edges| == Sum(end.ids, Following(end))
  {
    RunAgrees(db, run);
    var end := After(db, run);
    PartialTotals(end, end.ids);
    assert EdgesInto(end.edges, end.ids) == end.edges;
    assert EdgesOutOf(end.edges, end.ids) == end.edges;
  }

  /** A row of the table before and after a request differs in its counts at most. */
  ghost predicate SameIdentity(rows: map<string, User>, rows': map<string, User>) {
    rows.Keys == rows'.Keys &&
    forall u :: u in rows ==>
      rows'[u].stellarAddress == rows[u].stellarAddress && rows'[u].isPrivate == rows[u].isPrivate
  }

  lemma {:induction false} FindSame(ids: seq<string>, rows: map<string, User>, rows': map<string, User>,
                                    address: string)
    requires SameIdentity(rows, rows')
    ensures FindUser(ids, rows', address) == FindUser(ids, rows, address)
  {
    if ids != [] {
      FindSame(ids[1..], rows, rows', address);
    }
  }

  lemma DropUndoesBump(rows: map<string, User>, actor: string, target: string)
    requires actor in rows && target in rows && actor != target
    requires rows[actor].followingCount >= 0 && rows[target].followersCount >= 0
    ensures Drop(Bump(rows, actor, target), actor, target) == rows
  {
    var back := Drop(Bump(rows, actor, target), actor, target);
    assert back[actor] == rows[actor] && back[target] == rows[target];
  }

  /** Unfollowing right after a new follow restores the whole database. */
  lemma FollowThenUnfollow(db: Db, actor: string, target: string)
    requires Agree(db) && FollowEnds(db, actor, target).Success? && FollowEnds(db, actor, target).value !in db.edges
    ensures Unfollow(Follow(db, actor, target), actor, target) == db
  {
    var e, db' := FollowEnds(db, actor, target).value, Follow(db, actor, target);
    FindSame(db.ids, db.rows, db'.rows, actor);
    FindSame(db.ids, db.rows, db'.rows, target);
    assert CountsAgree(db, e.0) && CountsAgree(db, e.1);
    assert db'.edges - {e} == db.edges;
    DropUndoesBump(db.rows, e.0, e.1);
  }

  /** Repeating a request changes nothing more. */
  lemma FollowTwice(db: Db, actor: string, target: string)
    ensures Follow(Follow(db, actor, target), actor, target) == Follow(db, actor, target)
  {
    var e, db' := FollowEnds(db, actor, target), Follow(db, actor, target);
    if e.Success? && e.value !in db.edges {
      FindSame(db.ids, db.rows, db'.rows, actor);
      FindSame(db.ids, db.rows, db'.rows, target);
    }
  }
}
