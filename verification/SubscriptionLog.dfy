/**
  _parse_providers: reconciling Happ's append-only subscription log into a map
  of providers. The log arrives as events in file order; names of providers and
  the routing.json fallback do not affect urls and are not part of this model.
 */
module SubscriptionLog {
  import opened Common

  type Id = string

  /** A url cut where the code cuts it: scheme ("", "http://", "https://"), host, and the rest. */
  datatype Url = Url(scheme: string, host: string, path: string)

  datatype Event =
    | Update(id: Id, url: Url)   // "Subscription #id starting update from: url"
    | Added(url: Url)            // "Subscription being added: url"

  /** The text whose prefixes are compared: the path, or the whole url when it has no scheme and host. */
  function ComparedText(u: Url): string {
    if u.scheme != "" && u.host != "" then u.path else u.scheme + u.host + u.path
  }

  function CommonPrefix(a: string, b: string): nat {
    if |a| == 0 || |b| == 0 || a[0] != b[0] then 0 else 1 + CommonPrefix(a[1..], b[1..])
  }

  function Similarity(a: Url, b: Url): nat {
    CommonPrefix(ComparedText(a), ComparedText(b))
  }

  // ── First pass: the real ids ───────────────────────────────────────────────

  /** Position of the last update line of an id, None when it has none. */
  function LastUpdate(log: seq<Event>, id: Id): Option<nat> {
    if |log| == 0 then None
    else if log[|log| - 1].Update? && log[|log| - 1].id == id then Some(|log| - 1)
    else LastUpdate(log[..|log| - 1], id)
  }

  lemma {:induction false} LastUpdateIs(log: seq<Event>, id: Id)
    ensures LastUpdate(log, id).Some? ==>
      var n := LastUpdate(log, id).value;
      && n < |log| && log[n].Update? && log[n].id == id
      && forall k | n < k < |log| :: !(log[k].Update? && log[k].id == id)
    ensures LastUpdate(log, id).None? ==> forall e <- log :: !(e.Update? && e.id == id)
  {
    if |log| > 0 {
      LastUpdateIs(log[..|log| - 1], id);
      assert log == log[..|log| - 1] + [log[|log| - 1]];
    }
  }

  /** The dictionaries id_url and id_pos, in insertion order. */
  datatype Real = Real(ids: seq<Id>, urls: map<Id, Url>, pos: map<Id, nat>)

  ghost predicate Consistent(r: Real) {
    && r.pos.Keys == r.urls.Keys && (forall id :: id in r.ids <==> id in r.urls)
    && forall i, j | 0 <= i < j < |r.ids| :: r.ids[i] != r.ids[j]
  }

  ghost predicate ReadsId(r: Real, log: seq<Event>, id: Id) {
    if id in r.urls && id in r.pos
    then LastUpdate(log, id) == Some(r.pos[id]) && r.pos[id] < |log| && log[r.pos[id]] == Update(id, r.urls[id])
    else LastUpdate(log, id).None?
  }

  /** Every id with an update line, its newest url and where that stands. */
  ghost predicate Reads(r: Real, log: seq<Event>) {
    Consistent(r) && forall id :: ReadsId(r, log, id)
  }

  function Note(r: Real, e: Event, position: nat): Real {
    if e.Added? then r
    else Real(if e.id in r.ids then r.ids else r.ids + [e.id], r.urls[e.id := e.url], r.pos[e.id := position])
  }

  lemma ReadsOneMore(r: Real, log: seq<Event>, e: Event)
    requires Reads(r, log)
    ensures Reads(Note(r, e, |log|), log + [e])
  {
    var r', log' := Note(r, e, |log|), log + [e];
    assert log'[..|log|] == log;
    forall id ensures ReadsId(r', log', id) {
      assert ReadsId(r, log, id);
    }
  }

  /** Line n is the newest update line of the id, and carries the url. */
  ghost predicate IsNewestUpdate(log: seq<Event>, id: Id, n: nat, url: Url) {
    n < |log| && log[n] == Update(id, url) && forall k | n < k < |log| :: !(log[k].Update? && log[k].id == id)
  }

  ghost predicate NeverUpdated(log: seq<Event>, id: Id) {
    forall e <- log :: !(e.Update? && e.id == id)
  }

  /** What the first pass has noted, said of the log's lines. */
  ghost predicate Notes(r: Real, log: seq<Event>, id: Id) {
    if id in r.urls && id in r.pos then IsNewestUpdate(log, id, r.pos[id], r.urls[id]) else NeverUpdated(log, id)
  }

  lemma ReadsAreNotes(r: Real, log: seq<Event>)
    requires Reads(r, log)
    ensures forall id :: Notes(r, log, id)
  {
    forall id ensures Notes(r, log, id) {
      assert ReadsId(r, log, id);
      LastUpdateIs(log, id);
    }
  }

  /** The loop over the update lines: every id with its newest one. */
  method ReadUpdates(log: seq<Event>) returns (r: Real)
    ensures Reads(r, log)
    ensures forall id :: Notes(r, log, id)
  {
    r := Real([], map[], map[]);
    for i := 0 to |log|
      invariant Reads(r, log[..i])
    {
      ReadsOneMore(r, log[..i], log[i]);
      assert log[..i + 1] == log[..i] + [log[i]];
      r := Note(r, log[i], i);
    }
    assert log[..|log|] == log;
    ReadsAreNotes(r, log);
  }

  // ── Second pass: added lines ───────────────────────────────────────────────

  /** host_ids[host]: the ids whose newest update line is on the host, in first-seen order. */
  function HostIds(ids: seq<Id>, urls: map<Id, Url>, host: string): seq<Id> {
    if |ids| == 0 then []
    else
      var front, last := HostIds(ids[..|ids| - 1], urls, host), ids[|ids| - 1];
      if last in urls && urls[last].host == host then front + [last] else front
  }

  lemma {:induction false} HostIdsAre(ids: seq<Id>, urls: map<Id, Url>, host: string)
    ensures forall id :: id in HostIds(ids, urls, host) <==> id in ids && id in urls && urls[id].host == host
  {
    if |ids| > 0 {
      HostIdsAre(ids[..|ids| - 1], urls, host);
      assert ids == ids[..|ids| - 1] + [ids[|ids| - 1]];
    }
  }

  /** The newest of the ids' update positions. */
  function Newest(ids: seq<Id>, pos: map<Id, nat>): nat
    requires forall id <- ids :: id in pos
  {
    if |ids| == 0 then 0 else Max(Newest(ids[..|ids| - 1], pos), pos[ids[|ids| - 1]])
  }

  function Similarities(ids: seq<Id>, urls: map<Id, Url>, url: Url): seq<nat>
    requires forall id <- ids :: id in urls
  {
    seq(|ids|, i requires 0 <= i < |ids| => Similarity(urls[ids[i]], url))
  }

  /** The position a scan keeps that moves on to strictly greater numbers only. */
  function FirstMax(numbers: seq<nat>): (k: nat)
    requires |numbers| > 0
    ensures k < |numbers|
  {
    if |numbers| == 1 then 0
    else
      var best, last := FirstMax(numbers[..|numbers| - 1]), |numbers| - 1;
      if numbers[last] > numbers[best] then last else best
  }

  /** The number at k is greater than any before it and no smaller than any after it. */
  ghost predicate FirstGreatest(numbers: seq<nat>, k: nat) {
    && k < |numbers|
    && (forall j | 0 <= j < |numbers| :: numbers[j] <= numbers[k])
    && (forall j | 0 <= j < k :: numbers[j] < numbers[k])
  }

  lemma {:induction false} FirstMaxIsGreatest(numbers: seq<nat>)
    requires |numbers| > 0
    ensures FirstGreatest(numbers, FirstMax(numbers))
  {
    if |numbers| > 1 {
      FirstMaxIsGreatest(numbers[..|numbers| - 1]);
      assert forall j | 0 <= j < |numbers| - 1 :: numbers[..|numbers| - 1][j] == numbers[j];
    }
  }

  /** The first id whose url shares the longest prefix with the added one. */
  function Closest(ids: seq<Id>, urls: map<Id, Url>, url: Url): (id: Id)
    requires |ids| > 0 && forall id <- ids :: id in urls
    ensures id in ids
  {
    ids[FirstMax(Similarities(ids, urls, url))]
  }

  /** What the second pass changes. */
  datatype State = State(urls: map<Id, Url>, synth: map<string, Url>)

  /** One added line. */
  function AddStep(r: Real, s: State, position: nat, url: Url): (t: State)
    requires r.urls.Keys == s.urls.Keys && r.pos.Keys == s.urls.Keys
    ensures t.urls.Keys == s.urls.Keys
  {
    HostIdsAre(r.ids, r.urls, url.host);
    var ids := HostIds(r.ids, r.urls, url.host);
    if url in s.urls.Values then s
    else if |ids| == 0 then s.(synth := s.synth[url.host := url])
    else if position < Newest(ids, r.pos) then s
    else s.(urls := s.urls[Closest(ids, s.urls, url) := url])
  }

  /** One line of the second pass. */
  function LineStep(r: Real, s: State, position: nat, e: Event): (t: State)
    requires r.urls.Keys == s.urls.Keys && r.pos.Keys == s.urls.Keys
    ensures t.urls.Keys == s.urls.Keys
  {
    if e.Added? then AddStep(r, s, position, e.url) else s
  }

  /** The second pass over the first n lines. */
  function AddAll(r: Real, log: seq<Event>, n: nat): (s: State)
    requires n <= |log| && r.pos.Keys == r.urls.Keys
    ensures s.urls.Keys == r.urls.Keys
  {
    if n == 0 then State(r.urls, map[]) else LineStep(r, AddAll(r, log, n - 1), n - 1, log[n - 1])
  }

  /** Similarity counts the longest common prefix. */
  lemma {:induction false} CommonPrefixIsLongest(a: string, b: string, m: nat)
    requires m <= |a| && m <= |b|
    ensures m <= CommonPrefix(a, b) <==> a[..m] == b[..m]
    ensures CommonPrefix(a, b) <= |a| && CommonPrefix(a, b) <= |b|
  {
    if a != "" && b != "" && a[0] == b[0] {
      CommonPrefixIsLongest(a[1..], b[1..], if m == 0 then 0 else m - 1);
      if m > 0 {
        assert a[..m] == [a[0]] + a[1..][..m - 1] && b[..m] == [b[0]] + b[1..][..m - 1];
      }
    } else if m > 0 {
      assert a[..m][0] == a[0] && b[..m][0] == b[0];
    }
  }

  /** What is compared: the paths, and the whole of a url that has no scheme or no host. */
  lemma SimilarityCounts(a: Url, b: Url, x: string, y: string, m: nat)
    requires x == if a.scheme == "" || a.host == "" then a.scheme + a.host + a.path else a.path
    requires y == if b.scheme == "" || b.host == "" then b.scheme + b.host + b.path else b.path
    requires m <= |x| && m <= |y|
    ensures m <= Similarity(a, b) <==> x[..m] == y[..m]
    ensures Similarity(a, b) <= |x| && Similarity(a, b) <= |y|
  {
    CommonPrefixIsLongest(x, y, m);
  }

  /** b's path agrees with the one of url at least as far as a's does. */
  ghost predicate AgreesAsFar(a: Url, b: Url, url: Url) {
    forall m: nat | m <= |a.path| && m <= |url.path| && a.path[..m] == url.path[..m] ::
      m <= |b.path| && b.path[..m] == url.path[..m]
  }

  /** For urls with scheme and host, similarity compares how far the paths agree. */
  lemma SimilarityIsAgreement(a: Url, b: Url, url: Url)
    requires a.scheme != "" && a.host != "" && b.scheme != "" && b.host != "" && url.scheme != "" && url.host != ""
    ensures Similarity(a, url) <= Similarity(b, url) <==> AgreesAsFar(a, b, url)
  {
    forall m: nat | m <= |a.path| && m <= |url.path|
      ensures m <= Similarity(a, url) <==> a.path[..m] == url.path[..m]
    {
      SimilarityCounts(a, url, a.path, url.path, m);
    }
    forall m: nat | m <= |b.path| && m <= |url.path|
      ensures m <= Similarity(b, url) <==> b.path[..m] == url.path[..m]
    {
      SimilarityCounts(b, url, b.path, url.path, m);
    }
    SimilarityCounts(a, url, a.path, url.path, 0);
    SimilarityCounts(b, url, b.path, url.path, 0);
    if AgreesAsFar(a, b, url) {
      var m := Similarity(a, url);
      assert a.path[..m] == url.path[..m];
    }
  }

  /** The chosen id's path agrees with the line's at least as far as any other's, and further than any earlier one's. */
  ghost predicate HasClosestPath(ids: seq<Id>, urls: map<Id, Url>, url: Url, id: Id) {
    exists k: nat :: ClosestAt(ids, urls, url, k) && ids[k] == id
  }

  ghost predicate ClosestAt(ids: seq<Id>, urls: map<Id, Url>, url: Url, k: nat) {
    && k < |ids|
    && (forall j | 0 <= j < |ids| :: PathAsFar(urls, ids[j], ids[k], url))
    && (forall j | 0 <= j < k :: !PathAsFar(urls, ids[k], ids[j], url))
  }

  ghost predicate PathAsFar(urls: map<Id, Url>, a: Id, b: Id, url: Url) {
    a in urls && b in urls && AgreesAsFar(urls[a], urls[b], url)
  }

  lemma ClosestHasClosestPath(ids: seq<Id>, urls: map<Id, Url>, url: Url)
    requires |ids| > 0 && forall id <- ids :: id in urls
    requires url.scheme != "" && url.host != "" && forall id <- ids :: urls[id].scheme != "" && urls[id].host != ""
    ensures HasClosestPath(ids, urls, url, Closest(ids, urls, url))
  {
    var numbers := Similarities(ids, urls, url);
    var k := FirstMax(numbers);
    FirstMaxIsGreatest(numbers);
    forall j | 0 <= j < |ids| ensures PathAsFar(urls, ids[j], ids[k], url) {
      assert numbers[j] <= numbers[k];
      SimilarityIsAgreement(urls[ids[j]], urls[ids[k]], url);
    }
    forall j | 0 <= j < k ensures !PathAsFar(urls, ids[k], ids[j], url) {
      assert numbers[j] < numbers[k];
      SimilarityIsAgreement(urls[ids[k]], urls[ids[j]], url);
    }
  }

  /** The scan of max: it moves on to strictly greater numbers only. */
  method ScanForMax(numbers: seq<nat>) returns (best: nat)
    requires |numbers| > 0
    ensures best == FirstMax(numbers) && FirstGreatest(numbers, best)
  {
    best := 0;
    for i := 1 to |numbers|
      invariant best == FirstMax(numbers[..i]) && best < i
    {
      assert numbers[..i + 1][..i] == numbers[..i];
      if numbers[i] > numbers[best] {
        best := i;
      }
    }
    assert numbers[..|numbers|] == numbers;
    FirstMaxIsGreatest(numbers);
  }

  /** max over the ids, keyed by similarity: the first of those that share the longest prefix. */
  method PickClosest(ids: seq<Id>, urls: map<Id, Url>, url: Url) returns (id: Id)
    requires |ids| > 0 && forall id <- ids :: id in urls
    ensures id == Closest(ids, urls, url)
    ensures exists k: nat :: FirstGreatest(Similarities(ids, urls, url), k) && ids[k] == id
    ensures url.scheme != "" && url.host != "" && (forall i <- ids :: urls[i].scheme != "" && urls[i].host != "") ==>
      HasClosestPath(ids, urls, url, id)
  {
    var best := ScanForMax(Similarities(ids, urls, url));
    if url.scheme != "" && url.host != "" && (forall i <- ids :: urls[i].scheme != "" && urls[i].host != "") {
      ClosestHasClosestPath(ids, urls, url);
    }
    return ids[best];
  }

  /** Both passes. */
  method Reconcile(log: seq<Event>) returns (r: Real, s: State)
    ensures Reads(r, log) && r.pos.Keys == r.urls.Keys
    ensures s == AddAll(r, log, |log|)
  {
    r := ReadUpdates(log);
    assert r.pos.Keys == r.urls.Keys;
    s := State(r.urls, map[]);
    for i := 0 to |log|
      invariant s == AddAll(r, log, i)
    {
      if log[i].Update? { continue; }
      var url := log[i].url;
      if url in s.urls.Values { continue; }
      var ids := HostIds(r.ids, r.urls, url.host);
      HostIdsAre(r.ids, r.urls, url.host);
      if |ids| > 0 {
        if i < Newest(ids, r.pos) { continue; }
        var id := PickClosest(ids, s.urls, url);
        s := s.(urls := s.urls[id := url]);
      } else {
        s := s.(synth := s.synth[url.host := url]);
      }
    }
  }

  // ── What every added line keeps ────────────────────────────────────────────

  /** The host of an id is that of its newest update line, always. */
  ghost predicate HostsKept(r: Real, s: State) {
    && r.urls.Keys == s.urls.Keys
    && forall id <- s.urls :: s.urls[id].host == r.urls[id].host
  }

  ghost predicate Injective(urls: map<Id, Url>) {
    forall a, b | a in urls && b in urls && urls[a] == urls[b] :: a == b
  }

  /** Synthesized providers exist only for hosts without a real id. */
  ghost predicate SynthOnlyForUnknown(r: Real, s: State) {
    && (forall host <- s.synth :: s.synth[host].host == host)
    && forall host <- s.synth, id <- r.urls :: r.urls[id].host != host
  }

  /** The three things an added line can do. */
  ghost predicate Change(r: Real, s: State, t: State, url: Url) {
    || t == s
    || (t == s.(synth := s.synth[url.host := url]) && forall id <- r.urls :: r.urls[id].host != url.host)
    || (url !in s.urls.Values && exists id ::
          id in r.urls && r.urls[id].host == url.host && t == s.(urls := s.urls[id := url]))
  }

  lemma AddStepChanges(r: Real, s: State, position: nat, url: Url)
    requires Consistent(r) && r.urls.Keys == s.urls.Keys
    ensures Change(r, s, AddStep(r, s, position, url), url)
  {
    HostIdsAre(r.ids, r.urls, url.host);
  }

  lemma ChangeKeepsHosts(r: Real, s: State, t: State, url: Url)
    requires Change(r, s, t, url) && HostsKept(r, s)
    ensures HostsKept(r, t)
  {
    if t.urls != s.urls {
      var id :| id in r.urls && r.urls[id].host == url.host && t == s.(urls := s.urls[id := url]);
      assert id in s.urls;
    }
  }

  lemma ChangeKeepsSynth(r: Real, s: State, t: State, url: Url)
    requires Change(r, s, t, url) && SynthOnlyForUnknown(r, s)
    ensures SynthOnlyForUnknown(r, t)
  {}

  lemma ChangeKeepsInjective(r: Real, s: State, t: State, url: Url)
    requires Change(r, s, t, url) && Injective(s.urls)
    ensures Injective(t.urls)
  {
    if t.urls != s.urls {
      var id :| id in r.urls && r.urls[id].host == url.host && t == s.(urls := s.urls[id := url]);
      forall a, b | a in t.urls && b in t.urls && t.urls[a] == t.urls[b] ensures a == b {
        assert a != id ==> s.urls[a] in s.urls.Values;
        assert b != id ==> s.urls[b] in s.urls.Values;
      }
    }
  }

  /** An added line gives at most one id a new url, and that id belongs to the line's host. */
  lemma AddedLineChangesAtMostOne(r: Real, s: State, position: nat, url: Url, a: Id, b: Id)
    requires Consistent(r) && r.urls.Keys == s.urls.Keys && a in s.urls && b in s.urls && a != b
    ensures var t := AddStep(r, s, position, url);
      && (t.urls[a] == s.urls[a] || t.urls[b] == s.urls[b])
      && (t.urls[a] != s.urls[a] ==> t.urls[a] == url && r.urls[a].host == url.host && t.synth == s.synth)
  {
    AddStepChanges(r, s, position, url);
  }

  lemma {:induction false} NewestIs(ids: seq<Id>, pos: map<Id, nat>, id: Id)
    requires (forall i <- ids :: i in pos) && id in ids
    ensures pos[id] <= Newest(ids, pos)
  {
    if id in ids[..|ids| - 1] {
      NewestIs(ids[..|ids| - 1], pos, id);
    }
  }

  /** An added line older than the host's newest update line has no effect. */
  lemma StaleLineIgnored(r: Real, s: State, position: nat, url: Url, id: Id)
    requires Consistent(r) && r.urls.Keys == s.urls.Keys
    requires id in r.urls && r.urls[id].host == url.host && position < r.pos[id]
    ensures AddStep(r, s, position, url) == s
  {
    HostIdsAre(r.ids, r.urls, url.host);
    NewestIs(HostIds(r.ids, r.urls, url.host), r.pos, id);
  }

  ghost predicate Precedes(ids: seq<Id>, x: Id, y: Id) {
    exists a, b :: 0 <= a < b < |ids| && ids[a] == x && ids[b] == y
  }

  lemma {:induction false} HostIdsInOrder(ids: seq<Id>, urls: map<Id, Url>, host: string, k: nat, l: nat)
    requires k < l < |HostIds(ids, urls, host)|
    ensures Precedes(ids, HostIds(ids, urls, host)[k], HostIds(ids, urls, host)[l])
  {
    var front, last := HostIds(ids[..|ids| - 1], urls, host), ids[|ids| - 1];
    if l < |front| {
      HostIdsInOrder(ids[..|ids| - 1], urls, host, k, l);
      var a, b :| 0 <= a < b < |ids| - 1 && ids[..|ids| - 1][a] == front[k] && ids[..|ids| - 1][b] == front[l];
      assert ids[a] == front[k] && ids[b] == front[l];
    } else {
      HostIdsAre(ids[..|ids| - 1], urls, host);
      assert front[k] in front;
      var a :| 0 <= a < |ids| - 1 && ids[..|ids| - 1][a] == front[k];
      assert ids[a] == front[k] && ids[|ids| - 1] == last;
    }
  }

  /** The first of the host's ids, in the order of the log, whose path agrees with the line's as far as any of them. */
  ghost predicate FirstClosestOf(r: Real, s: State, url: Url, id: Id) {
    && id in r.urls && r.urls[id].host == url.host
    && forall other <- r.urls | r.urls[other].host == url.host ::
         && PathAsFar(s.urls, other, id, url)
         && (Precedes(r.ids, other, id) ==> !PathAsFar(s.urls, id, other, url))
  }

  /** A line no older than the host's update lines, with a new url, moves exactly that id to it. */
  lemma AddedLineGoesToClosest(r: Real, s: State, position: nat, url: Url) returns (id: Id)
    requires Consistent(r) && HostsKept(r, s) && url !in s.urls.Values
    requires exists i <- r.urls :: r.urls[i].host == url.host
    requires forall i <- r.urls | r.urls[i].host == url.host :: r.pos[i] <= position
    requires url.scheme != "" && url.host != ""
    requires forall i <- r.urls | r.urls[i].host == url.host :: s.urls[i].scheme != ""
    ensures FirstClosestOf(r, s, url, id) && AddStep(r, s, position, url) == s.(urls := s.urls[id := url])
  {
    var ids := HostIds(r.ids, r.urls, url.host);
    HostIdsAre(r.ids, r.urls, url.host);
    NewestAtMost(ids, r.pos, position);
    id := Closest(ids, s.urls, url);
    ClosestHasClosestPath(ids, s.urls, url);
    var k: nat :| ClosestAt(ids, s.urls, url, k) && ids[k] == id;
    forall other <- r.urls | r.urls[other].host == url.host
      ensures PathAsFar(s.urls, other, id, url)
      ensures Precedes(r.ids, other, id) ==> !PathAsFar(s.urls, id, other, url)
    {
      FirstAmongHostIds(r, s, url, k, other);
    }
  }

  lemma FirstAmongHostIds(r: Real, s: State, url: Url, k: nat, other: Id)
    requires Consistent(r) && other in r.urls && r.urls[other].host == url.host
    requires ClosestAt(HostIds(r.ids, r.urls, url.host), s.urls, url, k)
    ensures
      var id := HostIds(r.ids, r.urls, url.host)[k];
      && PathAsFar(s.urls, other, id, url)
      && (Precedes(r.ids, other, id) ==> !PathAsFar(s.urls, id, other, url))
  {
    var ids := HostIds(r.ids, r.urls, url.host);
    HostIdsAre(r.ids, r.urls, url.host);
    assert other in ids;
    var j :| 0 <= j < |ids| && ids[j] == other;
    if k < j {
      HostIdsInOrder(r.ids, r.urls, url.host, k, j);
      PrecedesOneWay(r.ids, ids[k], other);
    } else if k == j {
      PrecedesOneWay(r.ids, other, other);
    }
  }

  lemma PrecedesOneWay(ids: seq<Id>, x: Id, y: Id)
    requires forall i, j | 0 <= i < j < |ids| :: ids[i] != ids[j]
    ensures !(Precedes(ids, x, y) && Precedes(ids, y, x))
  {}

  lemma {:induction false} NewestAtMost(ids: seq<Id>, pos: map<Id, nat>, position: nat)
    requires forall i | 0 <= i < |ids| :: ids[i] in pos && pos[ids[i]] <= position
    ensures Newest(ids, pos) <= position
  {
    if |ids| > 0 {
      NewestAtMost(ids[..|ids| - 1], pos, position);
    }
  }

  /** The lines without such an effect: a url some id has already, and a host without a real id. */
  lemma AddedLineOtherwise(r: Real, s: State, position: nat, url: Url)
    requires Consistent(r) && HostsKept(r, s)
    ensures url in s.urls.Values ==> AddStep(r, s, position, url) == s
    ensures url !in s.urls.Values && (forall i <- r.urls :: r.urls[i].host != url.host) ==>
      AddStep(r, s, position, url) == s.(synth := s.synth[url.host := url])
  {
    HostIdsAre(r.ids, r.urls, url.host);
  }

  ghost predicate Kept(r: Real, s: State) {
    HostsKept(r, s) && SynthOnlyForUnknown(r, s) && (Injective(r.urls) ==> Injective(s.urls))
  }

  lemma ChangeKeeps(r: Real, s: State, t: State, url: Url)
    requires Change(r, s, t, url) && Kept(r, s)
    ensures Kept(r, t)
  {
    ChangeKeepsHosts(r, s, t, url);
    ChangeKeepsSynth(r, s, t, url);
    if Injective(s.urls) {
      ChangeKeepsInjective(r, s, t, url);
    }
  }

  /** Over the whole log: ids and their hosts stay, distinct urls stay distinct, nothing is synthesized beside a real id. */
  lemma {:induction false} AllLinesKeep(r: Real, log: seq<Event>, n: nat)
    requires Consistent(r) && n <= |log|
    ensures Kept(r, AddAll(r, log, n))
  {
    if n > 0 {
      AllLinesKeep(r, log, n - 1);
      LineChanges(r, log, n);
      ChangeKeeps(r, AddAll(r, log, n - 1), AddAll(r, log, n), log[n - 1].url);
    }
  }

  lemma LineChanges(r: Real, log: seq<Event>, n: nat)
    requires Consistent(r) && 0 < n <= |log|
    ensures Change(r, AddAll(r, log, n - 1), AddAll(r, log, n), log[n - 1].url)
  {
    if log[n - 1].Added? {
      AddStepChanges(r, AddAll(r, log, n - 1), n - 1, log[n - 1].url);
    }
  }

  // ── Hosts with at most one real id ─────────────────────────────────────────

  predicate AddedOn(e: Event, host: string) {
    e.Added? && e.url.host == host
  }

  /** Line m is the last word on a host: nothing was added for it from m on. */
  ghost predicate LastWord(log: seq<Event>, m: nat, n: nat, host: string) {
    m < |log| && n <= |log| && forall k | m < k < n :: !AddedOn(log[k], host)
  }

  ghost predicate OnlyId(r: Real, host: string, id: Id) {
    id in r.urls && forall other <- r.urls :: r.urls[other].host == host <==> other == id
  }

  /** The url of id stands on line m, which is its newest update line or a later added line, and the last such. */
  ghost predicate CarriesLastLine(r: Real, log: seq<Event>, n: nat, id: Id, url: Url, m: nat)
    requires id in r.urls && id in r.pos
  {
    && LastWord(log, m, n, r.urls[id].host) && log[m].url == url
    && (m == r.pos[id] || (r.pos[id] < m < n && AddedOn(log[m], r.urls[id].host)))
  }

  /** One more line: it takes over when it is an added line for the host after the id's own line. */
  lemma OneMoreLine(r: Real, log: seq<Event>, n: nat, id: Id, before: Url, after: Url, m: nat)
    requires id in r.urls && id in r.pos && 0 < n <= |log| && CarriesLastLine(r, log, n - 1, id, before, m)
    requires log[r.pos[id]].Update?
    requires after == if AddedOn(log[n - 1], r.urls[id].host) && r.pos[id] <= n - 1 then log[n - 1].url else before
    ensures CarriesLastLine(r, log, n, id, after, m) || CarriesLastLine(r, log, n, id, after, n - 1)
  {
    if AddedOn(log[n - 1], r.urls[id].host) && r.pos[id] <= n - 1 {
      assert r.pos[id] != n - 1;
      assert LastWord(log, n - 1, n, r.urls[id].host);
    } else {
      assert LastWord(log, m, n, r.urls[id].host);
    }
  }

  /** A host with a single real id: that id carries the newest of its update line and the added lines. */
  lemma {:induction false} SingleIdCarriesNewest(r: Real, log: seq<Event>, n: nat, id: Id)
    requires Consistent(r) && n <= |log| && id in r.urls && ReadsId(r, log, id)
    requires OnlyId(r, r.urls[id].host, id)
    ensures exists m: nat :: CarriesLastLine(r, log, n, id, AddAll(r, log, n).urls[id], m)
  {
    if n == 0 {
      assert AddAll(r, log, n).urls[id] == r.urls[id];
      assert CarriesLastLine(r, log, n, id, AddAll(r, log, n).urls[id], r.pos[id]);
    } else {
      SingleIdCarriesNewest(r, log, n - 1, id);
      var m: nat :| CarriesLastLine(r, log, n - 1, id, AddAll(r, log, n - 1).urls[id], m);
      AllLinesKeep(r, log, n - 1);
      SingleStep(r, AddAll(r, log, n - 1), n - 1, log[n - 1], id);
      OneMoreLine(r, log, n, id, AddAll(r, log, n - 1).urls[id], AddAll(r, log, n).urls[id], m);
    }
  }

  lemma SingleStep(r: Real, s: State, position: nat, e: Event, id: Id)
    requires Consistent(r) && HostsKept(r, s) && id in r.urls && OnlyId(r, r.urls[id].host, id)
    ensures LineStep(r, s, position, e).urls[id] ==
      if AddedOn(e, r.urls[id].host) && r.pos[id] <= position then e.url else s.urls[id]
  {
    if !AddedOn(e, r.urls[id].host) {
      OtherHostsUntouched(r, s, position, e, id);
    } else if position < r.pos[id] {
      StaleLineIgnored(r, s, position, e.url, id);
    } else {
      OnlyIdTakesUrl(r, s, position, e.url, id);
    }
  }

  lemma OtherHostsUntouched(r: Real, s: State, position: nat, e: Event, id: Id)
    requires Consistent(r) && HostsKept(r, s) && id in r.urls && !AddedOn(e, r.urls[id].host)
    ensures e.Added? ==> AddStep(r, s, position, e.url).urls[id] == s.urls[id]
  {
    if e.Added? {
      AddStepChanges(r, s, position, e.url);
    }
  }

  lemma OnlyIdTakesUrl(r: Real, s: State, position: nat, url: Url, id: Id)
    requires Consistent(r) && HostsKept(r, s) && OnlyId(r, url.host, id) && r.pos[id] <= position
    ensures AddStep(r, s, position, url).urls[id] == url
  {
    var ids := HostIds(r.ids, r.urls, url.host);
    HostIdsAre(r.ids, r.urls, url.host);
    assert id in ids;
    forall i | 0 <= i < |ids| ensures ids[i] == id {
      assert ids[i] in ids;
    }
    NewestOf(ids, r.pos, id);
  }

  lemma {:induction false} NewestOf(ids: seq<Id>, pos: map<Id, nat>, id: Id)
    requires id in pos && forall i | 0 <= i < |ids| :: ids[i] == id
    ensures Newest(ids, pos) <= pos[id]
  {
    if |ids| > 0 {
      NewestOf(ids[..|ids| - 1], pos, id);
    }
  }

  ghost predicate LastAdded(log: seq<Event>, n: nat, host: string, url: Url, m: nat) {
    m < n <= |log| && AddedOn(log[m], host) && LastWord(log, m, n, host) && log[m].url == url
  }

  ghost predicate NeverAdded(log: seq<Event>, n: nat, host: string) {
    n <= |log| && forall k | 0 <= k < n :: !AddedOn(log[k], host)
  }

  lemma SynthStep(r: Real, s: State, position: nat, e: Event, host: string)
    requires Consistent(r) && HostsKept(r, s)
    requires forall id <- r.urls :: r.urls[id].host != host
    ensures SynthMoves(s, LineStep(r, s, position, e), e, host)
  {
    if e.Added? {
      HostIdsAre(r.ids, r.urls, e.url.host);
    }
  }

  /** What one line does to the synthesized url of a host without a real id. */
  ghost predicate SynthMoves(s: State, t: State, e: Event, host: string) {
    if AddedOn(e, host) then host in t.synth && t.synth[host] == e.url
    else (host in t.synth <==> host in s.synth) && (host in s.synth ==> t.synth[host] == s.synth[host])
  }

  lemma LineMovesSynth(r: Real, log: seq<Event>, n: nat, host: string)
    requires Consistent(r) && 0 < n <= |log|
    requires forall id <- r.urls :: r.urls[id].host != host
    ensures SynthMoves(AddAll(r, log, n - 1), AddAll(r, log, n), log[n - 1], host)
  {
    assert HostsKept(r, AddAll(r, log, n - 1)) by {
      AllLinesKeep(r, log, n - 1);
    }
    SynthStep(r, AddAll(r, log, n - 1), n - 1, log[n - 1], host);
  }

  ghost predicate SynthIsLast(s: State, log: seq<Event>, n: nat, host: string) {
    if host in s.synth then exists m: nat :: LastAdded(log, n, host, s.synth[host], m) else NeverAdded(log, n, host)
  }

  lemma SynthOneMore(s: State, t: State, log: seq<Event>, n: nat, host: string)
    requires 0 < n <= |log| && SynthIsLast(s, log, n - 1, host)
    requires SynthMoves(s, t, log[n - 1], host)
    ensures SynthIsLast(t, log, n, host)
  {
    if AddedOn(log[n - 1], host) {
      assert LastAdded(log, n, host, log[n - 1].url, n - 1);
    } else if host in s.synth {
      var m: nat :| LastAdded(log, n - 1, host, s.synth[host], m);
      assert LastAdded(log, n, host, s.synth[host], m);
    }
  }

  /** A host without a real id: synthesized from its last added line, if there is one. */
  lemma {:induction false} UnknownHostCarriesLastAdded(r: Real, log: seq<Event>, n: nat, host: string)
    requires Consistent(r) && n <= |log|
    requires forall id <- r.urls :: r.urls[id].host != host
    ensures SynthIsLast(AddAll(r, log, n), log, n, host)
  {
    if n > 0 {
      UnknownHostCarriesLastAdded(r, log, n - 1, host);
      LineMovesSynth(r, log, n, host);
      SynthOneMore(AddAll(r, log, n - 1), AddAll(r, log, n), log, n, host);
    }
  }

  // ── The result ─────────────────────────────────────────────────────────────

  /** Log-derived keys: the log's own ids are numerals, synthesized ones are an "h" and a digest of the url. */
  datatype ProviderId = RealId(id: Id) | SynthId(digest: string)

  /** No two synthesized urls share a digest. */
  ghost predicate NoCollision(s: State, digest: Url -> string) {
    forall g, h | g in s.synth && h in s.synth && digest(s.synth[g]) == digest(s.synth[h]) :: g == h
  }

  function RealPart(s: State): map<ProviderId, Url> {
    map id | id in s.urls :: RealId(id) := s.urls[id]
  }

  function SynthPart(s: State, digest: Url -> string): map<ProviderId, Url>
    requires NoCollision(s, digest)
  {
    map host | host in s.synth :: SynthId(digest(s.synth[host])) := s.synth[host]
  }

  function Providers(s: State, digest: Url -> string): map<ProviderId, Url>
    requires NoCollision(s, digest)
  {
    RealPart(s) + SynthPart(s, digest)
  }

  lemma RealProvider(s: State, digest: Url -> string, id: Id)
    requires NoCollision(s, digest)
    ensures RealId(id) in Providers(s, digest) <==> id in s.urls
    ensures id in s.urls ==> Providers(s, digest)[RealId(id)] == s.urls[id]
  {
    assert RealId(id) !in SynthPart(s, digest);
    assert RealId(id) in RealPart(s) <==> id in s.urls;
  }

  lemma SynthProvider(s: State, digest: Url -> string, d: string) returns (host: string)
    requires NoCollision(s, digest) && SynthId(d) in Providers(s, digest)
    ensures host in s.synth && digest(s.synth[host]) == d && Providers(s, digest)[SynthId(d)] == s.synth[host]
  {
    assert SynthId(d) !in RealPart(s);
    var part := SynthPart(s, digest);
    assert SynthId(d) in part;
    host :| host in s.synth && digest(s.synth[host]) == d && part[SynthId(d)] == s.synth[host];
  }

  lemma SynthIsProvider(s: State, digest: Url -> string, host: string)
    requires NoCollision(s, digest) && host in s.synth
    ensures SynthId(digest(s.synth[host])) in Providers(s, digest)
    ensures Providers(s, digest)[SynthId(digest(s.synth[host]))] == s.synth[host]
  {
    var h := SynthProvider(s, digest, digest(s.synth[host]));
  }

  /** Which keys of the result belong to a host. */
  lemma ProviderOfHostIff(r: Real, s: State, digest: Url -> string, host: string, k: ProviderId)
    requires Kept(r, s) && NoCollision(s, digest)
    ensures k in Providers(s, digest) && Providers(s, digest)[k].host == host <==>
      if k.RealId? then k.id in r.urls && r.urls[k.id].host == host
      else host in s.synth && k.digest == digest(s.synth[host])
  {
    match k
    case RealId(id) => RealProvider(s, digest, id);
    case SynthId(d) =>
      if k in Providers(s, digest) {
        var h := SynthProvider(s, digest, d);
      }
      if host in s.synth && d == digest(s.synth[host]) {
        SynthIsProvider(s, digest, host);
      }
  }

  /** A host of the log with a single real id has exactly one provider, under that id. */
  lemma OneProviderUnderRealId(r: Real, log: seq<Event>, digest: Url -> string, id: Id, k: ProviderId)
    requires Consistent(r) && id in r.urls && OnlyId(r, r.urls[id].host, id)
    requires NoCollision(AddAll(r, log, |log|), digest)
    ensures var p := Providers(AddAll(r, log, |log|), digest);
      k in p && p[k].host == r.urls[id].host <==> k == RealId(id)
  {
    AllLinesKeep(r, log, |log|);
    ProviderOfHostIff(r, AddAll(r, log, |log|), digest, r.urls[id].host, k);
  }

  /** And that provider carries the url of the host's last line: the id's newest update or a later added line. */
  lemma OneProviderCarriesLastLine(r: Real, log: seq<Event>, digest: Url -> string, id: Id)
    requires Reads(r, log) && id in r.urls && OnlyId(r, r.urls[id].host, id)
    requires NoCollision(AddAll(r, log, |log|), digest)
    ensures
      var p := Providers(AddAll(r, log, |log|), digest);
      RealId(id) in p && exists m: nat :: CarriesLastLine(r, log, |log|, id, p[RealId(id)], m)
  {
    assert ReadsId(r, log, id);
    SingleIdCarriesNewest(r, log, |log|, id);
    RealProvider(AddAll(r, log, |log|), digest, id);
  }

  /** A host without one has exactly one provider when a line added it, none otherwise. */
  lemma OneSynthesizedProvider(r: Real, log: seq<Event>, digest: Url -> string, host: string, k: ProviderId)
    requires Consistent(r) && forall id <- r.urls :: r.urls[id].host != host
    requires NoCollision(AddAll(r, log, |log|), digest)
    ensures var s := AddAll(r, log, |log|); var p := Providers(s, digest);
      k in p && p[k].host == host <==>
        host in s.synth && k == SynthId(digest(s.synth[host])) && !NeverAdded(log, |log|, host)
  {
    AllLinesKeep(r, log, |log|);
    ProviderOfHostIff(r, AddAll(r, log, |log|), digest, host, k);
    UnknownHostCarriesLastAdded(r, log, |log|, host);
  }
}
