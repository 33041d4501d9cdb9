/**
  fetch_subscription: one subscription's cache file over any run of calls, and
  the stat-keyed memo through which the status path reads that file.
 */
module SubscriptionCache {
  import opened Common

  const MAX_AGE := 3600

  type Server = string
  type Info = string

  /** The cache file; a record without a url was written before urls were recorded. */
  datatype Record = Record(at: int, url: Option<string>, servers: seq<Server>, info: Option<Info>)

  /** What the provider answers: nothing usable (error, stub), or a server list with or without header info. */
  datatype Answer = Unusable | WellFormed(servers: seq<Server>, info: Option<Info>)

  /** One call: when it looks at the cache, when an answer would be stamped, what would be answered, and whether the write works. */
  datatype Call = Call(url: string, force: bool, now: int, stamp: int, canFetch: bool, answer: Answer, written: bool)

  class Cache {
    var record: Option<Record>

    constructor ()
      ensures record.None?
    {
      record := None;
    }

    /**
      fetch_subscription. A forced call, and one whose cached list is of another
      url or an hour old, brings the new list when the provider answers with one;
      every other call returns what the cache held, and changes nothing. What is
      returned is what the cache then holds, exactly unless a new answer could
      not be written; a failed write is suppressed.
     */
    method Fetch(c: Call) returns (servers: seq<Server>)
      modifies this
      ensures record == After(old(record), c)
      ensures c.force && c.canFetch && c.answer.WellFormed? ==> servers == c.answer.servers
      ensures c.canFetch && c.answer.WellFormed? && (old(record).None? || c.now - old(record).value.at >= 3600) ==>
        servers == c.answer.servers
      ensures c.canFetch && c.answer.WellFormed? && old(record).Some? && old(record).value.url != None
              && old(record).value.url != Some(c.url) ==>
        servers == c.answer.servers
      ensures !c.canFetch || c.answer.Unusable? ==> servers == ServersOf(old(record)) && record == old(record)
      ensures !c.force && old(record).Some? && c.now - old(record).value.at < 3600
              && (old(record).value.url == None || old(record).value.url == Some(c.url)) ==>
        servers == old(record).value.servers && record == old(record)
      ensures servers == ServersOf(record)
        <==> !Answers(old(record), c) || c.written || c.answer.servers == ServersOf(old(record))
    {
      var cached := record;
      if !c.force && cached.Some? && (cached.value.url.None? || cached.value.url == Some(c.url))
         && c.now - cached.value.at < MAX_AGE {
        return cached.value.servers;
      }
      if c.canFetch {
        if c.answer.WellFormed? {
          var info := c.answer.info;
          if info.None? && cached.Some? && cached.value.url == Some(c.url) && cached.value.info.Some? {
            info := cached.value.info;
          }
          if c.written {
            record := Some(Record(c.stamp, Some(c.url), c.answer.servers, info));
          }
          return c.answer.servers;
        }
      }
      return if cached.Some? then cached.value.servers else [];
    }
  }

  function ServersOf(cached: Option<Record>): seq<Server> {
    if cached.Some? then cached.value.servers else []
  }

  predicate Fresh(cached: Option<Record>, c: Call) {
    && !c.force && cached.Some? && cached.value.url in {None, Some(c.url)}
    && c.now - cached.value.at < MAX_AGE
  }

  /** The call reaches the provider and gets a server list. */
  predicate Answers(cached: Option<Record>, c: Call) {
    !Fresh(cached, c) && c.canFetch && c.answer.WellFormed?
  }

  /** The answer also reaches the cache file. */
  predicate Stores(cached: Option<Record>, c: Call) {
    Answers(cached, c) && c.written
  }

  function KeptInfo(cached: Option<Record>, c: Call): Option<Info> {
    if cached.Some? && cached.value.url == Some(c.url) then cached.value.info else None
  }

  function After(cached: Option<Record>, c: Call): Option<Record> {
    if !Stores(cached, c) then cached
    else Some(Record(c.stamp, Some(c.url), c.answer.servers,
                     if c.answer.info.Some? then c.answer.info else KeptInfo(cached, c)))
  }

  // ── Over a run from an empty cache ─────────────────────────────────────────

  function CacheAfter(calls: seq<Call>): Option<Record> {
    if |calls| == 0 then None else After(CacheAfter(calls[..|calls| - 1]), calls[|calls| - 1])
  }

  /** Call i of the run was answered with a server list, and the answer was stored. */
  ghost predicate Answered(calls: seq<Call>, i: nat) {
    i < |calls| && Stores(CacheAfter(calls[..i]), calls[i])
  }

  ghost predicate LastAnswered(calls: seq<Call>, j: nat) {
    Answered(calls, j) && forall i | j < i < |calls| :: !Answered(calls, i)
  }

  /** Answer k brought the info, and only answers for the same url without info came after it. */
  ghost predicate InfoSource(calls: seq<Call>, j: nat, k: nat) {
    && k <= j && Answered(calls, k) && calls[k].answer.info.Some?
    && forall i | k <= i <= j && Answered(calls, i) ::
         calls[i].url == calls[k].url && (i > k ==> calls[i].answer.info.None?)
  }

  ghost predicate HoldsHistory(calls: seq<Call>, record: Option<Record>) {
    match record
    case None => forall i: nat :: !Answered(calls, i)
    case Some(r) => exists j: nat :: HoldsAnswer(calls, r, j)
  }

  /** The record is what answer j and the info streak that ends with it make. */
  ghost predicate HoldsAnswer(calls: seq<Call>, r: Record, j: nat) {
    && LastAnswered(calls, j)
    && r.servers == calls[j].answer.servers && r.url == Some(calls[j].url) && r.at == calls[j].stamp
    && (r.info.None? ==> forall k: nat :: !InfoSource(calls, j, k))
    && (r.info.Some? ==> exists k: nat :: InfoSource(calls, j, k) && r.info == calls[k].answer.info)
  }

  lemma AnsweredPrefix(calls: seq<Call>, c: Call, i: nat)
    requires i < |calls|
    ensures Answered(calls + [c], i) <==> Answered(calls, i)
    ensures (calls + [c])[i] == calls[i]
  {
    assert (calls + [c])[..i] == calls[..i];
  }

  lemma InfoSourcePrefix(calls: seq<Call>, c: Call, j: nat, k: nat)
    requires j < |calls|
    ensures InfoSource(calls + [c], j, k) <==> InfoSource(calls, j, k)
  {
    forall i: nat | i <= j ensures Answered(calls + [c], i) <==> Answered(calls, i) {
      AnsweredPrefix(calls, c, i);
    }
  }

  lemma UnansweredKeeps(calls: seq<Call>, c: Call, r: Record, j: nat)
    requires HoldsAnswer(calls, r, j) && !Answered(calls + [c], |calls|)
    ensures HoldsAnswer(calls + [c], r, j)
  {
    AnsweredPrefix(calls, c, j);
    forall i: nat | i < |calls| ensures Answered(calls + [c], i) <==> Answered(calls, i) {
      AnsweredPrefix(calls, c, i);
    }
    forall k: nat ensures InfoSource(calls + [c], j, k) <==> InfoSource(calls, j, k) {
      InfoSourcePrefix(calls, c, j, k);
    }
  }

  /** A source of the new answer's info that is not the answer itself already was one of the answer before. */
  lemma StreakGoesOn(calls: seq<Call>, c: Call, j: nat, k: nat)
    requires LastAnswered(calls, j) && Answered(calls + [c], |calls|) && c.answer.info.None?
    ensures InfoSource(calls + [c], |calls|, k) <==> c.url == calls[j].url && InfoSource(calls, j, k)
  {
    forall i: nat | i < |calls| ensures Answered(calls + [c], i) <==> Answered(calls, i) {
      AnsweredPrefix(calls, c, i);
    }
    if InfoSource(calls + [c], |calls|, k) {
      assert k != |calls| && Answered(calls, k) && k <= j;
      assert Answered(calls + [c], j);
      assert InfoSource(calls, j, k);
    }
    if c.url == calls[j].url && InfoSource(calls, j, k) {
      assert InfoSource(calls + [c], |calls|, k);
    }
  }

  lemma NewAnswerHeld(calls: seq<Call>, c: Call)
    requires HoldsHistory(calls, CacheAfter(calls)) && Stores(CacheAfter(calls), c)
    ensures HoldsAnswer(calls + [c], After(CacheAfter(calls), c).value, |calls|)
  {
    var all, n := calls + [c], |calls|;
    var cached := CacheAfter(calls);
    assert all[..n] == calls;
    assert LastAnswered(all, n);
    if c.answer.info.Some? {
      assert InfoSource(all, n, n);
    } else if cached.Some? {
      var j: nat :| HoldsAnswer(calls, cached.value, j);
      forall k: nat ensures InfoSource(all, n, k) <==> c.url == calls[j].url && InfoSource(calls, j, k) {
        StreakGoesOn(calls, c, j, k);
      }
      if KeptInfo(cached, c).Some? {
        var k: nat :| InfoSource(calls, j, k) && cached.value.info == calls[k].answer.info;
        assert InfoSource(all, n, k);
      }
    } else {
      forall k: nat ensures !InfoSource(all, n, k) {
        if k < n {
          AnsweredPrefix(calls, c, k);
        }
      }
    }
  }

  /** The cache always holds exactly what the history of stored answers says. */
  lemma {:induction false} CacheHoldsHistory(calls: seq<Call>)
    ensures HoldsHistory(calls, CacheAfter(calls))
  {
    if |calls| > 0 {
      var n := |calls| - 1;
      var front, c := calls[..n], calls[n];
      assert calls == front + [c];
      CacheHoldsHistory(front);
      var cached := CacheAfter(front);
      if Stores(cached, c) {
        NewAnswerHeld(front, c);
      } else if cached.Some? {
        var j: nat :| HoldsAnswer(front, cached.value, j);
        UnansweredKeeps(front, c, cached.value, j);
      } else {
        forall i: nat ensures !Answered(calls, i) {
          if i < n {
            AnsweredPrefix(front, c, i);
          }
        }
      }
    }
  }

  /** The last stored answer was for the url, and less than an hour ago. */
  ghost predicate AnsweredLately(calls: seq<Call>, url: string, now: int) {
    exists j: nat :: LastAnswered(calls, j) && calls[j].url == url && now - calls[j].stamp < 3600
  }

  /** The provider is left unasked exactly when the call is not forced and its url was answered within the hour. */
  lemma UnaskedIff(calls: seq<Call>, c: Call)
    ensures Fresh(CacheAfter(calls), c) <==> !c.force && AnsweredLately(calls, c.url, c.now)
  {
    CacheHoldsHistory(calls);
    if CacheAfter(calls).Some? {
      var j: nat :| HoldsAnswer(calls, CacheAfter(calls).value, j);
      forall i: nat | LastAnswered(calls, i) ensures i == j {}
    }
  }

  /** So a call gets its answer into the cache exactly when it asks, the provider answers, and the write works. */
  lemma AnsweredIff(calls: seq<Call>, c: Call)
    ensures Answered(calls + [c], |calls|) <==>
      && c.canFetch && c.answer.WellFormed? && c.written
      && (c.force || !AnsweredLately(calls, c.url, c.now))
  {
    assert (calls + [c])[..|calls|] == calls;
    UnaskedIff(calls, c);
  }

  /** And after every call the cache holds its list, or else the list it held before. */
  lemma CacheMoves(calls: seq<Call>, c: Call)
    ensures ServersOf(CacheAfter(calls + [c])) ==
      if c.canFetch && c.answer.WellFormed? && c.written && (c.force || !AnsweredLately(calls, c.url, c.now))
      then c.answer.servers else ServersOf(CacheAfter(calls))
  {
    assert (calls + [c])[..|calls|] == calls;
    AnsweredIff(calls, c);
  }

  // ── The memo ───────────────────────────────────────────────────────────────

  /** What stat and read see: the file's (inode, mtime, size) and its parsed content, None when unparsable. */
  datatype Version = Version(inode: nat, mtime: int, size: nat, content: Option<Record>)

  predicate SameStat(a: Version, b: Version) {
    a.inode == b.inode && a.mtime == b.mtime && a.size == b.size
  }

  /** Over the versions a file has had, the stat triple identifies the content. */
  ghost predicate StatIdentifies(versions: set<Version>) {
    forall a, b | a in versions && b in versions && a.inode == b.inode && a.mtime == b.mtime && a.size == b.size ::
      a.content == b.content
  }

  class Memo {
    var memo: Option<Version>
    ghost var seen: set<Version>

    constructor ()
      ensures Valid() && seen == {}
    {
      memo, seen := None, {};
    }

    ghost predicate Valid()
      reads this
    {
      memo.Some? ==> memo.value in seen && memo.value.content.Some?
    }

    /** _read_sub_cache: the answer is that of reading the file, whatever was memoized. */
    method Read(file: Option<Version>) returns (data: Option<Record>)
      requires Valid() && (file.Some? ==> StatIdentifies(seen + {file.value}))
      modifies this
      ensures Valid() && seen == old(seen) + if file.Some? then {file.value} else {}
      ensures data == if file.Some? then file.value.content else None
    {
      if file.None? { return None; }
      seen := seen + {file.value};
      if memo.Some? && SameStat(memo.value, file.value) {
        return memo.value.content;
      }
      if file.value.content.None? { return None; }
      memo := file;
      return file.value.content;
    }
  }
}
