/** The broadcast simulation (benchmark-broadcast/broadcast/broadcast.go, copy/copy.go): every peer
    knows its nearest peers by Hamming distance, and a message floods the resulting graph. */
module Broadcasting {
  import opened Bitmaps
  import opened Hamming
  import opened Sets

  const ID_BYTES := 16
  const FAR := 200

  type PeerId = id: seq<Byte> | |id| == ID_BYTES witness seq(ID_BYTES, _ => 0)

  datatype Peer = Peer(nr: nat, id: PeerId, peerMap: seq<PeerId>, path: seq<nat>)

  // ---------------------------------------------------------------------------------------------
  // Choosing neighbours
  // ---------------------------------------------------------------------------------------------

  /** Closer, or as close with a lower index. */
  predicate Before(d: seq<nat>, a: nat, b: nat)
    requires a < |d| && b < |d|
  {
    d[a] < d[b] || (d[a] == d[b] && a < b)
  }

  /** The peers that can be chosen: those at a positive distance. */
  function Candidates(d: seq<nat>): set<nat> {
    set i | 0 <= i < |d| && d[i] != 0
  }

  /** `chosen` lists the nearest candidates first to last, ties by index; when the candidates run
      out, peer 0 fills up the list. */
  ghost predicate NearestFirst(d: seq<nat>, chosen: seq<nat>) {
    && (forall i | 0 <= i < |chosen| :: chosen[i] < |d|)
    && (forall i | 0 <= i < |chosen| && i < |Candidates(d)| :: chosen[i] in Candidates(d))
    && (forall i, j | 0 <= i < j < |chosen| && j < |Candidates(d)| :: Before(d, chosen[i], chosen[j]))
    && (forall i, x | 0 <= i < |chosen| && i < |Candidates(d)| && x in Candidates(d) && x !in chosen ::
          Before(d, chosen[i], x))
    && (forall i | |Candidates(d)| <= i < |chosen| :: chosen[i] == 0)
  }

  /** The distances as the loop sees them: chosen peers are zeroed. */
  ghost predicate Zeroed(d: seq<nat>, chosen: seq<nat>, now: seq<nat>) {
    |now| == |d| && forall k | 0 <= k < |d| :: now[k] == if k in chosen then 0 else d[k]
  }

  /** All distances are below the bound the scan starts from. */
  ghost predicate Small(now: seq<nat>) {
    forall k | 0 <= k < |now| :: now[k] < FAR
  }

  /** One scan: the nearest remaining peer, or peer 0 if none is left. */
  method NearestRemaining(now: array<nat>) returns (indexForMin: nat)
    requires now.Length > 0 && Small(now[..])
    ensures indexForMin < now.Length
    ensures Candidates(now[..]) == {} ==> indexForMin == 0
    ensures Candidates(now[..]) != {} ==>
              && indexForMin in Candidates(now[..])
              && forall x | x in Candidates(now[..]) && x != indexForMin :: Before(now[..], indexForMin, x)
  {
    var min := FAR;
    indexForMin := 0;
    for k := 0 to now.Length
      invariant indexForMin < now.Length
      invariant min == FAR ==> indexForMin == 0 && forall x | 0 <= x < k :: now[x] == 0
      invariant min != FAR ==> indexForMin < k && min == now[indexForMin] != 0
      invariant min != FAR ==> forall x | 0 <= x < k && now[x] != 0 && x != indexForMin ::
                  Before(now[..], indexForMin, x)
    {
      if now[k] < min && now[k] != 0 {
        min := now[k];
        indexForMin := k;
      }
    }
    if min == FAR {
      assert Candidates(now[..]) == {};
    } else {
      assert indexForMin in Candidates(now[..]);
    }
  }

  function Taken(d: seq<nat>, chosen: seq<nat>): set<nat> {
    set x | x in chosen && x in Candidates(d)
  }

  lemma {:induction false} DistinctCount(chosen: seq<nat>, k: nat)
    requires k <= |chosen| && forall i, j | 0 <= i < j < k :: chosen[i] != chosen[j]
    ensures |set i | 0 <= i < k :: chosen[i]| == k
  {
    if k > 0 {
      DistinctCount(chosen, k - 1);
      var before := set i | 0 <= i < k - 1 :: chosen[i];
      assert (set i | 0 <= i < k :: chosen[i]) == before + {chosen[k - 1]};
    }
  }

  /** As many candidates are taken as there are choices, until all are. */
  lemma {:induction false} ChosenCount(d: seq<nat>, chosen: seq<nat>)
    requires NearestFirst(d, chosen)
    ensures |Taken(d, chosen)|
         == if |chosen| < |Candidates(d)| then |chosen| else |Candidates(d)|
  {
    var taken := Taken(d, chosen);
    var k := if |chosen| < |Candidates(d)| then |chosen| else |Candidates(d)|;
    forall i, j | 0 <= i < j < k ensures chosen[i] != chosen[j] {
      assert Before(d, chosen[i], chosen[j]);
    }
    DistinctCount(chosen, k);
    var first := set i | 0 <= i < k :: chosen[i];
    if |chosen| < |Candidates(d)| {
      assert taken == first;
    } else {
      assert first <= Candidates(d);
      SameSize(first, Candidates(d));
      assert taken == Candidates(d);
    }
  }

  /** Choosing one more peer keeps the order. */
  lemma ChooseNext(d: seq<nat>, chosen: seq<nat>, now: seq<nat>, next: nat)
    requires NearestFirst(d, chosen) && Zeroed(d, chosen, now) && next < |d|
    requires Candidates(now) == {} ==> next == 0
    requires Candidates(now) != {} ==>
               next in Candidates(now) && forall x | x in Candidates(now) && x != next :: Before(now, next, x)
    ensures NearestFirst(d, chosen + [next])
    ensures Zeroed(d, chosen + [next], now[next := 0])
  {
    ChosenCount(d, chosen);
    var taken := Taken(d, chosen);
    assert Candidates(now) == Candidates(d) - taken;
    if Candidates(now) == {} {
      forall x | x in Candidates(d) ensures x in taken {
        assert x in Candidates(now) + taken;
      }
      assert taken == Candidates(d);
      assert next !in Candidates(now);
      assert now[next] == 0;
    } else {
      var x :| x in Candidates(now);
      assert x in Candidates(d) && x !in taken;
      ProperSubsetSize(taken, Candidates(d), x);
      assert |chosen| < |Candidates(d)|;
      var longer := chosen + [next];
      forall x | x in Candidates(d) && x !in longer ensures Before(d, next, x) {
        assert x in Candidates(now) && x != next;
      }
      forall i | 0 <= i < |chosen| ensures Before(d, chosen[i], next) {
        assert next in Candidates(d) && next !in chosen;
      }
    }
  }

  ghost predicate DistinctIds(peers: seq<Peer>) {
    forall i, j | 0 <= i < j < |peers| :: peers[i].id != peers[j].id
  }

  function DistancesFrom(peers: seq<Peer>, index: nat): (d: seq<nat>)
    requires index < |peers|
    ensures |d| == |peers|
  {
    seq(|peers|, i requires 0 <= i < |peers| => Distance(peers[index].id, peers[i].id))
  }

  lemma AllButOne(d: seq<nat>, index: nat)
    requires index < |d| && forall i | 0 <= i < |d| :: d[i] != 0 <==> i != index
    ensures Candidates(d) == Range(|d|) - {index}
    ensures |Candidates(d)| == |d| - 1
  {
    assert Candidates(d) == Range(|d|) - {index};
  }

  /** With distinct ids everybody but the peer itself can be chosen. */
  lemma CandidatesAreTheOthers(peers: seq<Peer>, index: nat)
    requires index < |peers| && DistinctIds(peers)
    ensures Candidates(DistancesFrom(peers, index)) == Range(|peers|) - {index}
    ensures |Candidates(DistancesFrom(peers, index))| == |peers| - 1
  {
    var d := DistancesFrom(peers, index);
    forall i | 0 <= i < |peers| ensures d[i] != 0 <==> i != index {
      DistanceSeparates(peers[index].id, peers[i].id);
    }
    AllButOne(d, index);
  }

  /** The neighbours a peer ends up with: distinct others, nearest first with ties to the lower
      index, and no peer left out is nearer than a chosen one. */
  lemma NeighbourChoice(peers: seq<Peer>, index: nat, chosen: seq<nat>)
    requires index < |peers| && DistinctIds(peers)
    requires NearestFirst(DistancesFrom(peers, index), chosen) && |chosen| <= |peers| - 1
    ensures forall i | 0 <= i < |chosen| :: chosen[i] < |peers| && chosen[i] != index
    ensures forall i, j | 0 <= i < j < |chosen| ::
              var a := Distance(peers[index].id, peers[chosen[i]].id);
              var b := Distance(peers[index].id, peers[chosen[j]].id);
              a < b || (a == b && chosen[i] < chosen[j])
    ensures forall i, x: nat | 0 <= i < |chosen| && x < |peers| && x != index && x !in chosen ::
              var a, b := Distance(peers[index].id, peers[chosen[i]].id), Distance(peers[index].id, peers[x].id);
              a < b || (a == b && chosen[i] < x)
  {
    CandidatesAreTheOthers(peers, index);
    var d := DistancesFrom(peers, index);
    forall i, j | 0 <= i < j < |chosen| ensures Before(d, chosen[i], chosen[j]) {
    }
    forall i, x: nat | 0 <= i < |chosen| && x < |peers| && x != index && x !in chosen ensures Before(d, chosen[i], x) {
      assert x in Candidates(d);
      assert Before(d, chosen[i], x);
    }
  }

  function IdsOf(peers: seq<Peer>, chosen: seq<nat>): (ids: seq<PeerId>)
    requires forall i | 0 <= i < |chosen| :: chosen[i] < |peers|
  {
    seq(|chosen|, i requires 0 <= i < |chosen| => peers[chosen[i]].id)
  }

  // ---------------------------------------------------------------------------------------------
  // Routes
  // ---------------------------------------------------------------------------------------------

  /** `u` sends to `v`. */
  ghost predicate Edge(peers: seq<Peer>, u: nat, v: nat) {
    u < |peers| && v < |peers| && peers[v].id in peers[u].peerMap
  }

  /** `senders` are the peers a message passes on its way from `s` to `v`, `v` excluded. */
  ghost predicate IsRoute(peers: seq<Peer>, s: nat, v: nat, senders: seq<nat>)
    decreases senders
  {
    if senders == [] then v == s
    else
      var last := senders[|senders| - 1];
      Edge(peers, last, v) && IsRoute(peers, s, last, senders[..|senders| - 1])
  }

  ghost predicate Reachable(peers: seq<Peer>, s: nat, v: nat) {
    exists senders :: IsRoute(peers, s, v, senders)
  }

  ghost predicate IsShortest(peers: seq<Peer>, s: nat, v: nat, senders: seq<nat>) {
    IsRoute(peers, s, v, senders) && forall other | IsRoute(peers, s, v, other) :: |senders| <= |other|
  }

  lemma RouteStep(peers: seq<Peer>, s: nat, u: nat, v: nat, senders: seq<nat>)
    requires IsRoute(peers, s, u, senders) && Edge(peers, u, v)
    ensures IsRoute(peers, s, v, senders + [u])
  {
    assert (senders + [u])[..|senders|] == senders;
  }

  /** A labelling by routes that starts at the source, is closed under edges, and never grows by
      more than one along an edge labels exactly the reachable peers, each with a shortest route. */
  ghost predicate Settled(peers: seq<Peer>, s: nat, routes: map<nat, seq<nat>>) {
    && s in routes && routes[s] == []
    && (forall v | v in routes :: IsRoute(peers, s, v, routes[v]))
    && (forall u, v | u in routes && Edge(peers, u, v) :: v in routes && |routes[v]| <= |routes[u]| + 1)
  }

  lemma {:induction false} SettledBounds(peers: seq<Peer>, s: nat, routes: map<nat, seq<nat>>, v: nat, other: seq<nat>)
    requires Settled(peers, s, routes) && IsRoute(peers, s, v, other)
    ensures v in routes && |routes[v]| <= |other|
    decreases other
  {
    if other != [] {
      var last := other[|other| - 1];
      SettledBounds(peers, s, routes, last, other[..|other| - 1]);
    }
  }

  lemma SettledIsExact(peers: seq<Peer>, s: nat, routes: map<nat, seq<nat>>)
    requires Settled(peers, s, routes)
    ensures forall v: nat :: v in routes <==> Reachable(peers, s, v)
    ensures forall v | v in routes :: IsShortest(peers, s, v, routes[v])
  {
    forall v: nat ensures v in routes <==> Reachable(peers, s, v) {
      if senders :| IsRoute(peers, s, v, senders) {
        SettledBounds(peers, s, routes, v, senders);
      }
    }
    forall v, other | v in routes && IsRoute(peers, s, v, other) ensures |routes[v]| <= |other| {
      SettledBounds(peers, s, routes, v, other);
    }
  }

  // ---------------------------------------------------------------------------------------------
  // The flood
  // ---------------------------------------------------------------------------------------------

  /** The peers with a route are the finished ones and the queued ones; the edges of finished peers
      lead to peers with a route. */
  ghost predicate Frontier(g: seq<Peer>, s: nat, queue: seq<nat>, done: set<nat>, routes: map<nat, seq<nat>>) {
    && s in routes && routes[s] == []
    && (forall v | v in routes :: v < |g| && IsRoute(g, s, v, routes[v]))
    && done <= routes.Keys
    && (forall i | 0 <= i < |queue| :: queue[i] in routes && queue[i] !in done)
    && (forall i, j | 0 <= i < j < |queue| :: queue[i] != queue[j])
    && (forall u, v | u in done && Edge(g, u, v) :: v in routes && |routes[v]| <= |routes[u]| + 1)
  }

  /** Between two turns of the main loop: the queue holds everything unfinished, in order of depth,
      and its depths differ by at most one. */
  ghost predicate Waiting(g: seq<Peer>, s: nat, queue: seq<nat>, done: set<nat>, routes: map<nat, seq<nat>>) {
    && Frontier(g, s, queue, done, routes)
    && (forall v | v in routes :: v in done || v in queue)
    && (forall i, j | 0 <= i < j < |queue| :: |routes[queue[i]]| <= |routes[queue[j]]|)
    && (forall i | 0 <= i < |queue| :: |routes[queue[i]]| <= |routes[queue[0]]| + 1)
    && (queue != [] ==> forall u | u in done :: |routes[u]| <= |routes[queue[0]]|)
  }

  /** While peer `u` is sending. */
  ghost predicate Sending(g: seq<Peer>, s: nat, u: nat, queue: seq<nat>, done: set<nat>, routes: map<nat, seq<nat>>) {
    && Frontier(g, s, queue, done, routes)
    && u in routes && u !in done && u !in queue
    && (forall v | v in routes :: v in done || v in queue || v == u)
    && (forall i, j | 0 <= i < j < |queue| :: |routes[queue[i]]| <= |routes[queue[j]]|)
    && (forall i | 0 <= i < |queue| :: |routes[u]| <= |routes[queue[i]]| <= |routes[u]| + 1)
    && (forall w | w in done :: |routes[w]| <= |routes[u]|)
  }

  lemma StartFlood(g: seq<Peer>, s: nat)
    requires s < |g|
    ensures Waiting(g, s, [s], {}, map[s := []])
  {
  }

  lemma TakeFirst(g: seq<Peer>, s: nat, queue: seq<nat>, done: set<nat>, routes: map<nat, seq<nat>>)
    requires Waiting(g, s, queue, done, routes) && queue != []
    ensures Sending(g, s, queue[0], queue[1..], done, routes)
  {
    var rest := queue[1..];
    forall v | v in routes ensures v in done || v in rest || v == queue[0] {
      assert v in done || v in queue;
    }
    forall i | 0 <= i < |rest| ensures rest[i] == queue[i + 1] && rest[i] != queue[0] { }
  }

  /** The peer being sent from hands the message to a peer that had none. */
  lemma FrontierGrows(g: seq<Peer>, s: nat, v: nat, queue: seq<nat>, done: set<nat>, routes: map<nat, seq<nat>>,
                      path: seq<nat>)
    requires Frontier(g, s, queue, done, routes) && v < |g| && v !in routes && IsRoute(g, s, v, path)
    ensures Frontier(g, s, queue + [v], done, routes[v := path])
    ensures forall i | 0 <= i < |queue| :: queue[i] in routes && queue[i] != v
  {
    hide IsRoute, Edge;
  }

  lemma VisitNeighbour(g: seq<Peer>, s: nat, u: nat, v: nat,
                       queue: seq<nat>, done: set<nat>, routes: map<nat, seq<nat>>)
    requires Sending(g, s, u, queue, done, routes) && Edge(g, u, v) && v !in routes
    ensures Sending(g, s, u, queue + [v], done, routes[v := routes[u] + [u]])
  {
    hide IsRoute;
    RouteStep(g, s, u, v, routes[u]);
    FrontierGrows(g, s, v, queue, done, routes, routes[u] + [u]);
    var later := routes[v := routes[u] + [u]];
    assert forall w | w in done :: w in routes;
    hide Frontier, Edge;
    forall i | 0 <= i < |queue| ensures queue[i] != v && later[queue[i]] == routes[queue[i]] { }
    forall w | w in later ensures w in done || w in queue + [v] || w == u {
      assert w == v || w in routes;
    }
  }

  /** All neighbours have been served. */
  lemma FinishPeer(g: seq<Peer>, s: nat, u: nat, queue: seq<nat>, done: set<nat>, routes: map<nat, seq<nat>>)
    requires Sending(g, s, u, queue, done, routes)
    requires forall v | Edge(g, u, v) :: v in routes
    ensures Waiting(g, s, queue, done + {u}, routes)
  {
    forall v | Edge(g, u, v) ensures |routes[v]| <= |routes[u]| + 1 {
      assert v in done || v in queue || v == u;
    }
  }

  lemma FloodOver(g: seq<Peer>, s: nat, done: set<nat>, routes: map<nat, seq<nat>>)
    requires Waiting(g, s, [], done, routes)
    ensures Settled(g, s, routes) && done == routes.Keys
  {
    assert forall v | v in routes :: v in done;
  }

  // ---------------------------------------------------------------------------------------------
  // The simulator
  // ---------------------------------------------------------------------------------------------

  /** Peers as they are when the message starts: numbered by position, told apart by their ids,
      knowing only existing peers, with no path yet. */
  ghost predicate Ready(peers: seq<Peer>) {
    && DistinctIds(peers)
    && (forall i | 0 <= i < |peers| :: peers[i].nr == i && peers[i].path == [])
    && (forall i, val | 0 <= i < |peers| && val in peers[i].peerMap ::
          exists j :: 0 <= j < |peers| && peers[j].id == val)
  }

  /** The peers in the middle of the flood: only finished ones have stored their path. */
  ghost predicate Stored(g: seq<Peer>, peers: seq<Peer>, done: set<nat>, routes: map<nat, seq<nat>>) {
    && |peers| == |g| && done <= routes.Keys
    && forall i | 0 <= i < |g| :: peers[i] == g[i].(path := if i in done then routes[i] else [])
  }

  /** Queued peers carry their route. */
  ghost predicate Queued(g: seq<Peer>, queue: seq<Peer>, numbers: seq<nat>, routes: map<nat, seq<nat>>) {
    && |queue| == |numbers|
    && forall i | 0 <= i < |numbers| ::
         numbers[i] < |g| && numbers[i] in routes && queue[i] == g[numbers[i]].(path := routes[numbers[i]])
  }

  /** Exactly the peers with a route are marked as visited. */
  ghost predicate Marked(visited: seq<int>, n: nat, routes: map<nat, seq<nat>>) {
    |visited| == n && forall v: nat | v < n :: visited[v] != 0 <==> v in routes
  }

  lemma MarkedAt(visited: seq<int>, n: nat, routes: map<nat, seq<nat>>, v: nat)
    requires Marked(visited, n, routes) && v < n
    ensures |visited| == n && (visited[v] != 0 <==> v in routes)
  {
  }

  lemma MarkOne(visited: seq<int>, n: nat, routes: map<nat, seq<nat>>, v: nat, path: seq<nat>)
    requires Marked(visited, n, routes) && v < n
    ensures |visited| == n && Marked(visited[v := 1], n, routes[v := path])
  {
  }

  /** `copy.PeerPath`. */
  method PeerPath(dest: seq<nat>, src: seq<nat>, senderId: nat) returns (path: seq<nat>)
    ensures path == dest + src + [senderId]
  {
    path := dest;
    for i := 0 to |src|
      invariant path == dest + src[..i]
    {
      path := path + [src[i]];
      assert src[..i + 1] == src[..i] + [src[i]];
    }
    assert src[..|src|] == src;
    path := path + [senderId];
  }

  /** The peer with the given id, by scanning all of them. */
  method FindPeer(peers: seq<Peer>, val: PeerId, fallback: Peer) returns (neighbor: Peer)
    requires DistinctIds(peers)
    ensures forall j | 0 <= j < |peers| && peers[j].id == val :: neighbor == peers[j]
    ensures (forall j | 0 <= j < |peers| :: peers[j].id != val) ==> neighbor == fallback
  {
    neighbor := fallback;
    for k := 0 to |peers|
      invariant forall j | 0 <= j < k && peers[j].id == val :: neighbor == peers[j]
      invariant (forall j | 0 <= j < k :: peers[j].id != val) ==> neighbor == fallback
    {
      if peers[k].id == val {
        neighbor := peers[k];
      }
    }
  }

  /** The first `k` known ids belong to peers with a route. */
  ghost predicate Served(g: seq<Peer>, ids: seq<PeerId>, k: nat, routes: map<nat, seq<nat>>)
    requires k <= |ids|
  {
    forall v: nat | v < |g| && g[v].id in ids[..k] :: v in routes
  }

  ghost predicate Reached(g: seq<Peer>, val: PeerId, routes: map<nat, seq<nat>>) {
    forall v: nat | v < |g| && g[v].id == val :: v in routes
  }

  lemma ServeOne(g: seq<Peer>, ids: seq<PeerId>, k: nat, before: map<nat, seq<nat>>, routes: map<nat, seq<nat>>)
    requires k < |ids| && Served(g, ids, k, before) && before.Keys <= routes.Keys
    requires Reached(g, ids[k], routes)
    ensures Served(g, ids, k + 1, routes)
  {
    assert ids[..k + 1] == ids[..k] + [ids[k]];
    forall v: nat | v < |g| && g[v].id in ids[..k + 1] ensures v in routes {
      assert g[v].id in ids[..k] ==> v in before;
    }
  }

  lemma AllServed(g: seq<Peer>, u: nat, routes: map<nat, seq<nat>>)
    requires u < |g| && Served(g, g[u].peerMap, |g[u].peerMap|, routes)
    ensures forall v | Edge(g, u, v) :: v in routes
  {
    assert g[u].peerMap[..|g[u].peerMap|] == g[u].peerMap;
  }

  /** Peer `v`, and nobody else, has the id. */
  ghost predicate Owner(g: seq<Peer>, val: PeerId, v: nat) {
    v < |g| && g[v].id == val && forall w: nat | w < |g| && g[w].id == val :: w == v
  }

  lemma OwnerReached(g: seq<Peer>, val: PeerId, v: nat, routes: map<nat, seq<nat>>)
    requires Owner(g, val, v) && v in routes
    ensures Reached(g, val, routes)
  {
  }

  /** The one peer a known id belongs to. */
  ghost function Known(g: seq<Peer>, u: nat, val: PeerId): (v: nat)
    requires Ready(g) && u < |g| && val in g[u].peerMap
    ensures Owner(g, val, v) && Edge(g, u, v)
  {
    var v :| 0 <= v < |g| && g[v].id == val;
    v
  }

  lemma StoredKeepsIds(g: seq<Peer>, peers: seq<Peer>, done: set<nat>, routes: map<nat, seq<nat>>)
    requires Ready(g) && Stored(g, peers, done, routes)
    ensures DistinctIds(peers) && |peers| == |g|
    ensures forall i | 0 <= i < |g| :: peers[i].id == g[i].id && peers[i].nr == i
    ensures forall i: nat | i < |g| && i !in routes :: peers[i] == g[i] && g[i].path == []
  {
  }

  lemma QueuedRest(g: seq<Peer>, queue: seq<Peer>, numbers: seq<nat>, routes: map<nat, seq<nat>>)
    requires Queued(g, queue, numbers, routes) && queue != []
    ensures Queued(g, queue[1..], numbers[1..], routes)
    ensures queue[0] == g[numbers[0]].(path := routes[numbers[0]])
  {
  }

  /** A peer that has served its neighbours has its path stored. */
  lemma StoreFinished(g: seq<Peer>, before: seq<Peer>, after: seq<Peer>,
                      done: set<nat>, u: nat, routes: map<nat, seq<nat>>)
    requires Stored(g, before, done, routes) && u < |g| && u in routes && u !in done
    requires after == before[u := before[u].(path := before[u].path + routes[u])]
    ensures Stored(g, after, done + {u}, routes)
  {
    assert before[u].path + routes[u] == routes[u];
  }

  /** A new route joins the queue; nothing stored changes. */
  lemma ExtendStored(g: seq<Peer>, peers: seq<Peer>, queue: seq<Peer>, numbers: seq<nat>, done: set<nat>,
                     routes: map<nat, seq<nat>>, v: nat, path: seq<nat>)
    requires Stored(g, peers, done, routes) && Queued(g, queue, numbers, routes)
    requires v < |g| && v !in routes
    ensures Stored(g, peers, done, routes[v := path])
    ensures Queued(g, queue + [g[v].(path := path)], numbers + [v], routes[v := path])
  {
  }

  /** Everything that is true between two turns of the main loop. */
  ghost predicate Between(g: seq<Peer>, s: nat, peers: seq<Peer>, seen: seq<int>, queue: seq<Peer>,
                          numbers: seq<nat>, done: set<nat>, routes: map<nat, seq<nat>>)
  {
    && Waiting(g, s, numbers, done, routes) && Stored(g, peers, done, routes)
    && Queued(g, queue, numbers, routes) && Marked(seen, |g|, routes)
  }

  lemma AfterTheFlood(g: seq<Peer>, s: nat, peers: seq<Peer>, seen: seq<int>, queue: seq<Peer>,
                      numbers: seq<nat>, done: set<nat>, routes: map<nat, seq<nat>>)
    requires Between(g, s, peers, seen, queue, numbers, done, routes) && queue == []
    ensures Settled(g, s, routes) && Stored(g, peers, routes.Keys, routes) && Marked(seen, |g|, routes)
  {
    assert numbers == [];
    hide Waiting, Stored, Marked, Settled;
    FloodOver(g, s, done, routes);
  }

  /** Everything that is true while peer `u` is sending, in the ghost state and in the program's. */
  ghost predicate Flooding(g: seq<Peer>, s: nat, u: nat, peers: seq<Peer>, seen: seq<int>, queue: seq<Peer>,
                           numbers: seq<nat>, done: set<nat>, routes: map<nat, seq<nat>>)
  {
    && Sending(g, s, u, numbers, done, routes) && Stored(g, peers, done, routes)
    && Queued(g, queue, numbers, routes) && Marked(seen, |g|, routes)
  }

  lemma FloodingStored(g: seq<Peer>, s: nat, u: nat, peers: seq<Peer>, seen: seq<int>, queue: seq<Peer>,
                       numbers: seq<nat>, done: set<nat>, routes: map<nat, seq<nat>>)
    requires Flooding(g, s, u, peers, seen, queue, numbers, done, routes)
    ensures Stored(g, peers, done, routes) && Marked(seen, |g|, routes)
  {
  }

  /** The neighbour gets its route: nothing that was true of the flood is lost. */
  lemma Deliver(g: seq<Peer>, s: nat, u: nat, v: nat, peers: seq<Peer>, seen: seq<int>, queue: seq<Peer>,
                numbers: seq<nat>, done: set<nat>, routes: map<nat, seq<nat>>)
    requires Flooding(g, s, u, peers, seen, queue, numbers, done, routes)
    requires Edge(g, u, v) && v < |g| && v !in routes
    ensures u in routes && |seen| == |g|
    ensures var path := routes[u] + [u];
            var later := routes[v := path];
            && Flooding(g, s, u, peers, seen[v := 1], queue + [g[v].(path := path)], numbers + [v], done, later)
            && later[u] == routes[u] && routes.Keys <= later.Keys
  {
    hide Stored, Queued, Marked, Frontier, Edge;
    VisitNeighbour(g, s, u, v, numbers, done, routes);
    ExtendStored(g, peers, queue, numbers, done, routes, v, routes[u] + [u]);
    MarkOne(seen, |g|, routes, v, routes[u] + [u]);
  }

  /** Exactly the reachable peers store a path, and it is a shortest route; nothing else of a peer has
      changed. */
  ghost predicate RoutesStored(g: seq<Peer>, s: nat, peers: seq<Peer>) {
    && |peers| == |g|
    && (forall v | 0 <= v < |peers| :: peers[v] == g[v].(path := peers[v].path))
    && (forall v: nat | v < |peers| ::
          if Reachable(g, s, v) then IsShortest(g, s, v, peers[v].path) else peers[v].path == [])
  }

  /** What the settled routes say about the stored paths. */
  lemma FloodResult(g: seq<Peer>, s: nat, peers: seq<Peer>, done: set<nat>, routes: map<nat, seq<nat>>)
    requires Settled(g, s, routes) && done == routes.Keys && Stored(g, peers, done, routes)
    ensures forall v: nat :: v in routes <==> Reachable(g, s, v)
    ensures RoutesStored(g, s, peers)
  {
    SettledIsExact(g, s, routes);
    hide Settled, Reachable, IsShortest;
  }

  ghost function Unreachable(g: seq<Peer>, s: nat): set<nat> {
    set v | v in Range(|g|) && !Reachable(g, s, v)
  }

  function Unvisited(visited: seq<int>): set<nat> {
    set v | v in Range(|visited|) && visited[v] == 0
  }

  lemma LonelyAreUnreachable(g: seq<Peer>, s: nat, visited: seq<int>, routes: map<nat, seq<nat>>)
    requires Marked(visited, |g|, routes) && forall v: nat :: v in routes <==> Reachable(g, s, v)
    ensures Unvisited(visited) == Unreachable(g, s)
  {
    hide Reachable;
  }

  method CountUnvisited(visited: array<int>) returns (lonely: nat)
    ensures lonely == |Unvisited(visited[..])|
  {
    hide Range;
    lonely := 0;
    for i := 0 to visited.Length
      invariant lonely == |Unvisited(visited[..i])|
    {
      ghost var before, after := Unvisited(visited[..i]), Unvisited(visited[..i + 1]);
      if visited[i] == 0 {
        lonely := lonely + 1;
        assert after == before + {i};
      } else {
        assert after == before;
      }
    }
    assert visited[..visited.Length] == visited[..];
  }

  lemma FinishedRoom(n: nat, done: set<nat>, u: nat, routes: map<nat, seq<nat>>)
    requires done <= routes.Keys && u in routes && u !in done
    requires forall v | v in routes :: v < n
    ensures |done + {u}| == |done| + 1 <= n
  {
    SubsetSize(done + {u}, Range(n));
  }

  class Network {
    var peers: seq<Peer>

    constructor ()
      ensures peers == []
    {
      peers := [];
    }

    method CreatePeers(ids: seq<PeerId>)
      requires peers == []
      modifies this
      ensures |peers| == |ids|
      ensures forall i | 0 <= i < |ids| :: peers[i] == Peer(i, ids[i], [], [])
    {
      for i := 0 to |ids|
        invariant |peers| == i
        invariant forall k | 0 <= k < i :: peers[k] == Peer(k, ids[k], [], [])
      {
        peers := peers + [Peer(i, ids[i], [], [])];
      }
    }

    /** The distances of all peers from one of them. */
    method MeasureDistances(index: nat) returns (distanceToPeers: array<nat>)
      requires index < |peers|
      ensures fresh(distanceToPeers) && Small(distanceToPeers[..])
      ensures Zeroed(DistancesFrom(peers, index), [], distanceToPeers[..])
    {
      ghost var d := DistancesFrom(peers, index);
      distanceToPeers := new nat[|peers|](_ => 0);
      for i := 0 to |peers|
        invariant forall k | 0 <= k < i :: distanceToPeers[k] == d[k] < FAR
      {
        var x := XOR(peers[index].id, peers[i].id);
        distanceToPeers[i] := CountSet(x.value);
        DistanceSeparates(peers[index].id, peers[i].id);
      }
    }

    /** Scans for the nearest remaining peer again and again, striking out the peers it has chosen. */
    method ChooseNearest(ghost d: seq<nat>, distanceToPeers: array<nat>, peersPerNode: nat)
      returns (distanceMap: seq<PeerId>, ghost chosen: seq<nat>)
      requires |d| == |peers| > 0 && Zeroed(d, [], distanceToPeers[..]) && Small(distanceToPeers[..])
      modifies distanceToPeers
      ensures |chosen| == peersPerNode && NearestFirst(d, chosen) && distanceMap == IdsOf(peers, chosen)
    {
      chosen := [];
      distanceMap := [];
      assert NearestFirst(d, []) && IdsOf(peers, []) == [];
      hide NearestFirst;
      for j := 0 to peersPerNode
        invariant |chosen| == j && NearestFirst(d, chosen) && Zeroed(d, chosen, distanceToPeers[..])
        invariant Small(distanceToPeers[..]) && forall i | 0 <= i < |chosen| :: chosen[i] < |peers|
        invariant distanceMap == IdsOf(peers, chosen)
      {
        ghost var now := distanceToPeers[..];
        var indexForMin := NearestRemaining(distanceToPeers);
        ChooseNext(d, chosen, now, indexForMin);
        distanceMap := distanceMap + [peers[indexForMin].id];
        distanceToPeers[indexForMin] := 0;
        assert distanceToPeers[..] == now[indexForMin := 0];
        chosen := chosen + [indexForMin];
      }
    }

    /** Gives one peer its nearest peers as neighbours. */
    method ComputeDistance(index: nat, peersPerNode: nat) returns (ghost chosen: seq<nat>)
      requires index < |peers|
      modifies this
      ensures |chosen| == peersPerNode && NearestFirst(DistancesFrom(old(peers), index), chosen)
      ensures peers == old(peers)[index :=
                old(peers)[index].(peerMap := old(peers)[index].peerMap + IdsOf(old(peers), chosen))]
    {
      var distanceToPeers := MeasureDistances(index);
      var distanceMap;
      distanceMap, chosen := ChooseNearest(DistancesFrom(peers, index), distanceToPeers, peersPerNode);
      peers := peers[index := peers[index].(peerMap := peers[index].peerMap + distanceMap)];
    }

    /** Finds the neighbour an id belongs to. */
    method LookUp(ghost g: seq<Peer>, ghost u: nat, val: PeerId, stale: Peer,
                  ghost done: set<nat>, ghost routes: map<nat, seq<nat>>) returns (neighbor: Peer, ghost v: nat)
      requires Ready(g) && u < |g| && val in g[u].peerMap && Stored(g, peers, done, routes)
      ensures Owner(g, val, v) && v < |g| && Edge(g, u, v) && neighbor.nr == v
      ensures v !in routes ==> neighbor == g[v] && neighbor.path == []
    {
      v := Known(g, u, val);
      StoredKeepsIds(g, peers, done, routes);
      neighbor := FindPeer(peers, val, stale);
      assert neighbor == peers[v];
    }

    /** The body of the sending loop. */
    method PassOn(ghost g: seq<Peer>, ghost s: nat, node: Peer, ghost u: nat,
                  val: PeerId, stale: Peer, visited: array<int>,
                  queue0: seq<Peer>, ghost numbers0: seq<nat>, ghost done: set<nat>, ghost routes0: map<nat, seq<nat>>)
      returns (neighbor: Peer, queue: seq<Peer>, ghost numbers: seq<nat>, ghost routes: map<nat, seq<nat>>)
      requires Ready(g) && Flooding(g, s, u, peers, visited[..], queue0, numbers0, done, routes0)
      requires u < |g| && u in routes0 && node.nr == u && node.path == routes0[u] && val in g[u].peerMap
      modifies visited
      ensures Flooding(g, s, u, peers, visited[..], queue, numbers, done, routes)
      ensures u in routes && routes[u] == routes0[u] && routes0.Keys <= routes.Keys
      ensures Reached(g, val, routes)
    {
      hide Flooding, Ready, Stored, Edge, Owner, Reached;
      queue, numbers, routes := queue0, numbers0, routes0;
      ghost var seen := visited[..];
      FloodingStored(g, s, u, peers, seen, queue, numbers, done, routes);
      ghost var v;
      neighbor, v := LookUp(g, u, val, stale, done, routes);
      MarkedAt(seen, |g|, routes, v);
      hide Marked;
      assert visited.Length == |seen| && visited[v] == seen[v];
      if visited[neighbor.nr] == 0 {
        visited[neighbor.nr] := 1;
        assert visited[..] == seen[v := 1];
        var path := PeerPath(neighbor.path, node.path, node.nr);
        assert path == routes[u] + [u];
        neighbor := neighbor.(path := path);
        Deliver(g, s, u, v, peers, seen, queue, numbers, done, routes);
        queue := queue + [neighbor];
        numbers := numbers + [v];
        routes := routes[v := path];
      }
      OwnerReached(g, val, v, routes);
    }

    /** The sending loop of one peer: it passes the message to every neighbour that has none. */
    method ServePeer(ghost g: seq<Peer>, ghost s: nat, node: Peer, ghost u: nat, visited: array<int>,
                     queue0: seq<Peer>, ghost numbers0: seq<nat>,
                     ghost done: set<nat>, ghost routes0: map<nat, seq<nat>>)
      returns (queue: seq<Peer>, ghost numbers: seq<nat>, ghost routes: map<nat, seq<nat>>)
      requires Ready(g) && Flooding(g, s, u, peers, visited[..], queue0, numbers0, done, routes0)
      requires u < |g| && u in routes0 && node == g[u].(path := routes0[u])
      modifies visited
      ensures Flooding(g, s, u, peers, visited[..], queue, numbers, done, routes)
      ensures u in routes && routes[u] == routes0[u]
      ensures forall v | Edge(g, u, v) :: v in routes
    {
      queue, numbers, routes := queue0, numbers0, routes0;
      var neighbor := Peer(0, seq(ID_BYTES, _ => 0), [], []);
      assert node.nr == u;
      hide Flooding, Ready, Edge, Reached;
      for k := 0 to |node.peerMap|
        invariant Flooding(g, s, u, peers, visited[..], queue, numbers, done, routes)
        invariant u in routes && routes[u] == routes0[u] && Served(g, node.peerMap, k, routes)
      {
        ghost var before := routes;
        neighbor, queue, numbers, routes :=
          PassOn(g, s, node, u, node.peerMap[k], neighbor, visited, queue, numbers, done, routes);
        ServeOne(g, node.peerMap, k, before, routes);
      }
      AllServed(g, u, routes);
    }

    /** The first queued peer serves its neighbours. */
    method ServeFirst(ghost g: seq<Peer>, ghost s: nat, visited: array<int>, queue0: seq<Peer>,
                      ghost numbers0: seq<nat>, ghost done: set<nat>, ghost routes0: map<nat, seq<nat>>)
      returns (node: Peer, ghost u: nat, queue: seq<Peer>, ghost numbers: seq<nat>, ghost routes: map<nat, seq<nat>>)
      requires Ready(g) && queue0 != [] && Waiting(g, s, numbers0, done, routes0)
      requires Stored(g, peers, done, routes0) && Queued(g, queue0, numbers0, routes0)
      requires Marked(visited[..], |g|, routes0)
      modifies visited
      ensures u < |g| && u in routes && u !in done && node == g[u].(path := routes[u])
      ensures Waiting(g, s, numbers, done + {u}, routes)
      ensures Stored(g, peers, done, routes) && Queued(g, queue, numbers, routes)
      ensures Marked(visited[..], |g|, routes) && |queue| == |numbers|
      ensures |done + {u}| == |done| + 1 <= |g|
    {
      node, u := queue0[0], numbers0[0];
      TakeFirst(g, s, numbers0, done, routes0);
      QueuedRest(g, queue0, numbers0, routes0);
      hide Stored, Queued, Marked, Edge, Ready;
      queue, numbers, routes := ServePeer(g, s, node, u, visited, queue0[1..], numbers0[1..], done, routes0);
      FinishPeer(g, s, u, numbers, done, routes);
      FinishedRoom(|g|, done, u, routes);
    }

    /** Copies the path a queued peer carries into the peer list. */
    method StorePath(node: Peer)
      requires node.nr < |peers|
      requires forall i | 0 <= i < |peers| :: peers[i].nr == i
      modifies this
      ensures peers == old(peers)[node.nr :=
                old(peers)[node.nr].(path := old(peers)[node.nr].path + node.path)]
    {
      for i := 0 to |peers|
        invariant |peers| == |old(peers)|
        invariant forall k | 0 <= k < |peers| ::
                    peers[k] == if k < i && k == node.nr
                                then old(peers)[k].(path := old(peers)[k].path + node.path) else old(peers)[k]
      {
        if peers[i].nr == node.nr {
          peers := peers[i := peers[i].(path := peers[i].path + node.path)];
        }
      }
    }

    /** The peer that has served its neighbours stores its path. */
    method StoreServed(ghost g: seq<Peer>, node: Peer, ghost u: nat,
                       ghost done: set<nat>, ghost routes: map<nat, seq<nat>>)
      requires Ready(g) && Stored(g, peers, done, routes)
      requires u < |g| && u in routes && u !in done && node == g[u].(path := routes[u])
      modifies this
      ensures Stored(g, peers, done + {u}, routes)
    {
      StoredKeepsIds(g, peers, done, routes);
      ghost var before := peers;
      StorePath(node);
      StoreFinished(g, before, peers, done, u, routes);
    }

    /** One turn of the main loop: the first queued peer serves its neighbours and stores its path. */
    method ServeNext(ghost g: seq<Peer>, ghost s: nat, visited: array<int>, queue0: seq<Peer>,
                     ghost numbers0: seq<nat>, ghost done0: set<nat>, ghost routes0: map<nat, seq<nat>>)
      returns (queue: seq<Peer>, ghost numbers: seq<nat>, ghost done: set<nat>, ghost routes: map<nat, seq<nat>>)
      requires Ready(g) && queue0 != [] && Between(g, s, peers, visited[..], queue0, numbers0, done0, routes0)
      modifies this, visited
      ensures Between(g, s, peers, visited[..], queue, numbers, done, routes)
      ensures |done| == |done0| + 1 <= |g|
    {
      hide Ready, Waiting, Stored, Queued, Marked;
      var node; ghost var u;
      node, u, queue, numbers, routes := ServeFirst(g, s, visited, queue0, numbers0, done0, routes0);
      StoreServed(g, node, u, done0, routes);
      done := done0 + {u};
    }

    /** The main loop. */
    method Flood(user: Peer, nodes: nat) returns (visited: array<int>, ghost routes: map<nat, seq<nat>>)
      requires Ready(peers) && nodes == |peers|
      requires user.nr < |peers| && user == peers[user.nr]
      modifies this
      ensures fresh(visited) && visited.Length == nodes
      ensures Settled(old(peers), user.nr, routes) && Stored(old(peers), peers, routes.Keys, routes)
      ensures Marked(visited[..], nodes, routes)
    {
      ghost var g := peers;
      ghost var s := user.nr;
      visited := new int[nodes](_ => 0);
      visited[user.nr] := 1;
      var queue := [user];
      ghost var numbers: seq<nat> := [s];
      ghost var done: set<nat> := {};
      routes := map[s := []];
      StartFlood(g, s);
      assert Between(g, s, peers, visited[..], queue, numbers, done, routes);
      hide Between, Ready, Settled, Stored, Marked;
      while |queue| != 0
        invariant fresh(visited) && visited.Length == |g| == nodes && |done| <= nodes
        invariant Between(g, s, peers, visited[..], queue, numbers, done, routes)
        decreases nodes - |done|
      {
        queue, numbers, done, routes := ServeNext(g, s, visited, queue, numbers, done, routes);
      }
      AfterTheFlood(g, s, peers, visited[..], queue, numbers, done, routes);
    }

    /** The flood from `user`. Afterwards every reached peer stores a shortest route, the others
        store nothing, and the result counts the peers that cannot be reached. */
    method SendMessage(user: Peer, nodes: nat) returns (lonelyNode: nat)
      requires Ready(peers) && nodes == |peers|
      requires user.nr < |peers| && user == peers[user.nr]
      modifies this
      ensures RoutesStored(old(peers), user.nr, peers)
      ensures lonelyNode == |Unreachable(old(peers), user.nr)|
    {
      ghost var g := peers;
      var visited; ghost var routes;
      visited, routes := Flood(user, nodes);
      hide Ready, Settled, Stored, RoutesStored, Reachable, Unvisited, Unreachable, Marked;
      FloodResult(g, user.nr, peers, routes.Keys, routes);
      lonelyNode := CountUnvisited(visited);
      LonelyAreUnreachable(g, user.nr, visited[..], routes);
    }

    /** The longest stored path. */
    method HopNumber() returns (nrOfHops: nat)
      ensures forall i | 0 <= i < |peers| :: |peers[i].path| <= nrOfHops
      ensures nrOfHops == 0 || exists i :: 0 <= i < |peers| && |peers[i].path| == nrOfHops
    {
      nrOfHops := 0;
      for i := 0 to |peers|
        invariant forall k | 0 <= k < i :: |peers[k].path| <= nrOfHops
        invariant nrOfHops == 0 || exists k :: 0 <= k < |peers| && |peers[k].path| == nrOfHops
      {
        if |peers[i].path| > nrOfHops {
          nrOfHops := |peers[i].path|;
        }
      }
    }
  }

  /** `hops` is how far the farthest reachable peer is. */
  ghost predicate Eccentricity(g: seq<Peer>, s: nat, hops: nat) {
    && (forall v: nat, p | v < |g| && IsShortest(g, s, v, p) :: |p| <= hops)
    && exists v: nat, p :: v < |g| && IsShortest(g, s, v, p) && |p| == hops
  }

  ghost predicate KnowsNearest(g: seq<Peer>, i: nat, peersPerNode: nat)
    requires i < |g|
  {
    exists chosen :: |chosen| == peersPerNode && NearestFirst(DistancesFrom(g, i), chosen)
                     && g[i].peerMap == IdsOf(g, chosen)
  }

  /** Every peer knows its nearest peers and nobody has a path: the graph the message floods. */
  ghost predicate NearestGraph(g: seq<Peer>, ids: seq<PeerId>, peersPerNode: nat, upTo: nat) {
    && |g| == |ids| && upTo <= |ids|
    && (forall i | 0 <= i < |g| :: g[i].nr == i && g[i].id == ids[i] && g[i].path == [])
    && (forall i: nat | i < upTo :: KnowsNearest(g, i, peersPerNode))
    && (forall i: nat | upTo <= i < |g| :: g[i].peerMap == [])
  }

  ghost predicate SameIds(a: seq<Peer>, b: seq<Peer>) {
    |a| == |b| && forall i | 0 <= i < |a| :: a[i].id == b[i].id
  }

  /** Distances and neighbour ids depend on the ids only. */
  lemma SameIdsSameChoice(a: seq<Peer>, b: seq<Peer>, k: nat, chosen: seq<nat>)
    requires SameIds(a, b) && k < |a| && NearestFirst(DistancesFrom(a, k), chosen)
    ensures NearestFirst(DistancesFrom(b, k), chosen) && IdsOf(a, chosen) == IdsOf(b, chosen)
  {
    assert DistancesFrom(a, k) == DistancesFrom(b, k);
  }

  lemma KnowsNearestFrame(a: seq<Peer>, b: seq<Peer>, k: nat, peersPerNode: nat)
    requires SameIds(a, b) && k < |a| && a[k].peerMap == b[k].peerMap && KnowsNearest(a, k, peersPerNode)
    ensures KnowsNearest(b, k, peersPerNode)
  {
    var c :| |c| == peersPerNode && NearestFirst(DistancesFrom(a, k), c) && a[k].peerMap == IdsOf(a, c);
    SameIdsSameChoice(a, b, k, c);
  }

  lemma KnowsNearestNew(before: seq<Peer>, after: seq<Peer>, peersPerNode: nat, i: nat, chosen: seq<nat>)
    requires SameIds(before, after) && i < |before| && |chosen| == peersPerNode
    requires NearestFirst(DistancesFrom(before, i), chosen) && after[i].peerMap == [] + IdsOf(before, chosen)
    ensures KnowsNearest(after, i, peersPerNode)
  {
    SameIdsSameChoice(before, after, i, chosen);
    hide NearestFirst, DistancesFrom, SameIds;
    assert after[i].peerMap == IdsOf(after, chosen);
  }

  /** Giving peer `i` its neighbours leaves what the others know as it is. */
  lemma KnowsNearestStep(before: seq<Peer>, after: seq<Peer>, ids: seq<PeerId>,
                         peersPerNode: nat, i: nat, chosen: seq<nat>)
    requires i < |before| && NearestGraph(before, ids, peersPerNode, i)
    requires |chosen| == peersPerNode && NearestFirst(DistancesFrom(before, i), chosen)
    requires after == before[i := before[i].(peerMap := before[i].peerMap + IdsOf(before, chosen))]
    ensures NearestGraph(after, ids, peersPerNode, i + 1)
  {
    assert SameIds(before, after);
    hide NearestFirst, DistancesFrom, IdsOf, KnowsNearest, SameIds;
    KnowsNearestNew(before, after, peersPerNode, i, chosen);
    forall k: nat | k < i + 1 ensures KnowsNearest(after, k, peersPerNode) {
      if k < i {
        KnowsNearestFrame(before, after, k, peersPerNode);
      }
    }
    forall k | 0 <= k < |after| ensures after[k].nr == k && after[k].id == ids[k] && after[k].path == [] {
      assert before[k].nr == k;
    }
  }

  lemma NearestGraphReady(g: seq<Peer>, ids: seq<PeerId>, peersPerNode: nat)
    requires NearestGraph(g, ids, peersPerNode, |ids|)
    requires forall i, j | 0 <= i < j < |ids| :: ids[i] != ids[j]
    ensures Ready(g)
  {
    forall i, val | 0 <= i < |g| && val in g[i].peerMap ensures exists j :: 0 <= j < |g| && g[j].id == val {
      assert KnowsNearest(g, i, peersPerNode);
      var c :| |c| == peersPerNode && NearestFirst(DistancesFrom(g, i), c) && g[i].peerMap == IdsOf(g, c);
      var k :| 0 <= k < |c| && IdsOf(g, c)[k] == val;
      assert g[c[k]].id == val;
    }
  }

  /** The longest shortest route is the eccentricity of the source. */
  lemma HopsAreEccentricity(g: seq<Peer>, s: nat, peers: seq<Peer>, hops: nat)
    requires s < |g| && RoutesStored(g, s, peers)
    requires forall i | 0 <= i < |peers| :: |peers[i].path| <= hops
    requires hops == 0 || exists i :: 0 <= i < |peers| && |peers[i].path| == hops
    ensures Eccentricity(g, s, hops)
  {
    forall v: nat, p | v < |g| && IsShortest(g, s, v, p) ensures |p| <= hops {
      assert Reachable(g, s, v);
      assert IsShortest(g, s, v, peers[v].path);
    }
    assert IsRoute(g, s, s, []);
    if hops == 0 {
      assert IsShortest(g, s, s, []);
    } else {
      var i :| 0 <= i < |peers| && |peers[i].path| == hops;
      assert IsShortest(g, s, i, peers[i].path);
    }
  }

  /** A whole simulation on any distinct ids: the message spreads over the graph of nearest peers,
      the hop number is the eccentricity of the first peer, and the lonely peers are those it
      cannot reach. */
  method Broadcast(ids: seq<PeerId>, peersPerNode: nat) returns (nrOfHops: nat, lonelyNodes: nat, ghost g: seq<Peer>)
    requires ids != [] && forall i, j | 0 <= i < j < |ids| :: ids[i] != ids[j]
    ensures NearestGraph(g, ids, peersPerNode, |ids|)
    ensures Eccentricity(g, 0, nrOfHops)
    ensures lonelyNodes == |Unreachable(g, 0)|
  {
    var net := new Network();
    net.CreatePeers(ids);
    for i := 0 to |ids|
      invariant fresh(net) && NearestGraph(net.peers, ids, peersPerNode, i)
    {
      ghost var before := net.peers;
      ghost var chosen := net.ComputeDistance(i, peersPerNode);
      KnowsNearestStep(before, net.peers, ids, peersPerNode, i, chosen);
    }
    g := net.peers;
    NearestGraphReady(g, ids, peersPerNode);
    lonelyNodes := net.SendMessage(net.peers[0], |ids|);
    nrOfHops := net.HopNumber();
    HopsAreEccentricity(g, 0, net.peers, nrOfHops);
  }
}
