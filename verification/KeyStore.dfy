/** The store of imported keys: add_server and _find_server. */
module KeyStore {
  import opened Common
  import Lookup
  import opened Text

  /** A stored key; `extra` stands for the VLESS parameters that do not identify it. */
  datatype Server =
    | Shadowsocks(name: string, host: string, port: int, cipher: string, password: string, uid: string)
    | Vless(name: string, host: string, port: int, id: string, extra: string, uid: string)

  /** _key_fields: kind, method, secret, host, port. */
  function KeyFields(s: Server): (string, string, string, string, int) {
    match s
    case Shadowsocks(_, host, port, cipher, password, _) => ("ss", cipher, password, host, port)
    case Vless(_, host, port, id, _, _) => ("vless", "", id, host, port)
  }

  /** Two entries are the same key when kind, credentials, host and port agree; labels and parameters do not matter. */
  lemma SameKeyIff(a: Server, b: Server)
    ensures KeyFields(a) == KeyFields(b) <==>
      && a.host == b.host && a.port == b.port
      && ((a.Shadowsocks? && b.Shadowsocks? && a.cipher == b.cipher && a.password == b.password)
          || (a.Vless? && b.Vless? && a.id == b.id))
  {}

  type Fields = (string, string, string, string, int)

  ghost function Names(servers: seq<Server>): set<string> {
    set i | 0 <= i < |servers| :: servers[i].name
  }

  ghost function FieldsOf(servers: seq<Server>): set<Fields> {
    set i | 0 <= i < |servers| :: KeyFields(servers[i])
  }

  /** _load_servers keeps the entries that have a host. */
  function Usable(entries: seq<Server>): seq<Server> {
    if |entries| == 0 then []
    else (if entries[0].host != "" then [entries[0]] else []) + Usable(entries[1..])
  }

  /** Exactly the entries with a host, in order and number as they were. */
  lemma {:induction false} UsableIsFilter(a: seq<Server>, b: seq<Server>, s: Server)
    ensures Usable([s]) == if s.host == "" then [] else [s]
    ensures Usable(a + b) == Usable(a) + Usable(b)
  {
    assert [s][1..] == [];
    if |a| == 0 {
      assert a + b == b;
    } else {
      UsableIsFilter(a[1..], b, s);
      assert (a + b)[1..] == a[1..] + b;
    }
  }

  predicate AllHosted(servers: seq<Server>) {
    forall i | 0 <= i < |servers| :: servers[i].host != ""
  }

  lemma {:induction false} UsableKeepsHosted(entries: seq<Server>)
    ensures AllHosted(Usable(entries))
    ensures AllHosted(entries) ==> Usable(entries) == entries
  {
    if |entries| > 0 {
      UsableKeepsHosted(entries[1..]);
      if AllHosted(entries) {
        assert AllHosted(entries[1..]) by {
          forall i | 0 <= i < |entries| - 1 ensures entries[1..][i].host != "" {
            assert entries[1..][i] == entries[i + 1];
          }
        }
        assert [entries[0]] + entries[1..] == entries;
      }
    }
  }

  predicate SameExceptLabel(a: Server, b: Server) {
    a.(name := b.name, uid := b.uid) == b
  }

  /** What one import does to the list: nothing for a known key, else one more entry under a free name. */
  ghost predicate Imports(before: seq<Server>, key: Server, after: seq<Server>) {
    if KeyFields(key) in FieldsOf(before) then after == before
    else
      && |after| == |before| + 1 && after[..|before|] == before
      && SameExceptLabel(after[|before|], key)
      && IsFresh(Names(before), key.name, after[|before|].name)
  }

  predicate HasFields(servers: seq<Server>, f: Fields) {
    exists i | 0 <= i < |servers| :: KeyFields(servers[i]) == f
  }

  predicate HasName(servers: seq<Server>, name: string) {
    exists i | 0 <= i < |servers| :: servers[i].name == name
  }

  datatype File = Missing | Undecodable(text: string) | Entries(servers: seq<Server>)

  /** _load_servers: a file that cannot be decoded counts as an empty store. */
  function LoadedFrom(file: File): seq<Server> {
    if file.Entries? then Usable(file.servers) else []
  }

  class Store {
    var file: File

    constructor (file: File)
      ensures this.file == file
    {
      this.file := file;
    }

    function Loaded(): seq<Server>
      reads this
    {
      LoadedFrom(file)
    }

    /** add_server; `uid` is the random identifier drawn for a new entry. */
    method AddServer(parsed: Server, uid: string) returns (added: bool)
      modifies this
      ensures added <==> !HasFields(old(Loaded()), KeyFields(parsed))
      ensures !added ==> file == old(file)
      ensures added ==> file.Entries? && |file.servers| == |old(Loaded())| + 1
      ensures added ==> file.servers[|file.servers| - 1].uid == uid
      ensures added ==> Imports(old(Loaded()), parsed, file.servers)
    {
      var servers := Loaded();
      if HasFields(servers, KeyFields(parsed)) { return false; }
      var name := parsed.name;
      if HasName(servers, name) {
        var n := 2;
        while HasName(servers, Suffixed(name, n))
          invariant n >= 2 && forall m: nat | 2 <= m < n :: Suffixed(name, m) in Names(servers)
          decreases Blocking(Names(servers), name, n)
        {
          SkippingShrinksBlocking(Names(servers), name, n);
          n := n + 1;
        }
        assert IsFirstFree(Names(servers), name, n);
        name := Suffixed(name, n);
      }
      file := Entries(servers + [parsed.(name := name, uid := uid)]);
      return true;
    }
  }

  /** Everything the file held is still there, in its place. */
  predicate NothingLost(before: File, after: File) {
    match before
    case Missing => true
    case Undecodable(_) => after == before
    case Entries(servers) => after.Entries? && servers <= after.servers
  }

  /** Exactly when an import that adds a key keeps what the file held. */
  lemma ImportLosesNothingIff(before: File, key: Server, after: File)
    requires after.Entries? && key.host != "" && KeyFields(key) !in FieldsOf(LoadedFrom(before))
    requires Imports(LoadedFrom(before), key, after.servers)
    ensures NothingLost(before, after) <==> !before.Undecodable? && (before.Entries? ==> AllHosted(before.servers))
  {
    if before.Entries? {
      UsableKeepsHosted(before.servers);
      if NothingLost(before, after) {
        UsableShorter(before.servers);
        forall i | 0 <= i < |before.servers| ensures before.servers[i].host != "" {
          assert before.servers[i] == after.servers[i];
          if i < |after.servers| - 1 {
            assert after.servers[i] == LoadedFrom(before)[i];
          }
        }
      }
    }
  }

  lemma {:induction false} UsableShorter(entries: seq<Server>)
    ensures |Usable(entries)| <= |entries|
  {
    if |entries| > 0 {
      UsableShorter(entries[1..]);
    }
  }

  /** Names are pairwise distinct across both kinds, and so are the key fields. */
  ghost predicate Distinct(servers: seq<Server>) {
    && (forall i, j | 0 <= i < j < |servers| :: servers[i].name != servers[j].name)
    && (forall i, j | 0 <= i < j < |servers| :: KeyFields(servers[i]) != KeyFields(servers[j]))
  }

  /** Imports one after the other. */
  ghost predicate Run(before: seq<Server>, keys: seq<Server>, after: seq<Server>)
    decreases |keys|
  {
    if |keys| == 0 then after == before
    else exists between :: Imports(before, keys[0], between) && Run(between, keys[1..], after)
  }

  lemma SameFields(a: Server, b: Server)
    requires SameExceptLabel(a, b)
    ensures KeyFields(a) == KeyFields(b)
  {}

  lemma FieldsGrow(before: seq<Server>, next: Server, after: seq<Server>)
    requires after == before + [next]
    ensures FieldsOf(after) == FieldsOf(before) + {KeyFields(next)}
  {
    forall f | f in FieldsOf(before) + {KeyFields(next)} ensures f in FieldsOf(after) {
      if f in FieldsOf(before) {
        var i :| 0 <= i < |before| && KeyFields(before[i]) == f;
        assert KeyFields(after[i]) == f;
      } else {
        assert KeyFields(after[|before|]) == f;
      }
    }
  }

  lemma ImportKeeps(before: seq<Server>, key: Server, after: seq<Server>)
    requires Imports(before, key, after)
    ensures before <= after
    ensures FieldsOf(after) == FieldsOf(before) + {KeyFields(key)}
    ensures Distinct(before) ==> Distinct(after)
    ensures |after| == |before| + |{KeyFields(key)} - FieldsOf(before)|
  {
    if KeyFields(key) !in FieldsOf(before) {
      var next := after[|before|];
      assert after == before + [next];
      SameFields(next, key);
      FieldsGrow(before, next, after);
      FreshIsUnique(Names(before), key.name, next.name, next.name);
      assert {KeyFields(key)} - FieldsOf(before) == {KeyFields(key)};
      if Distinct(before) {
        forall i, j | 0 <= i < j < |after|
          ensures after[i].name != after[j].name && KeyFields(after[i]) != KeyFields(after[j])
        {
          assert before[i] == after[i] && before[i].name in Names(before) && KeyFields(before[i]) in FieldsOf(before);
        }
      }
    } else {
      assert {KeyFields(key)} - FieldsOf(before) == {};
    }
  }

  /**
    Over any run of imports: nothing stored is moved, changed or dropped, exactly
    the imported keys are added, and names and key fields stay pairwise distinct.
   */
  lemma {:induction false} RunKeeps(before: seq<Server>, keys: seq<Server>, after: seq<Server>)
    requires Run(before, keys, after)
    ensures before <= after
    ensures FieldsOf(after) == FieldsOf(before) + FieldsOf(keys)
    ensures Distinct(before) ==> Distinct(after)
    decreases |keys|
  {
    if |keys| > 0 {
      var between :| Imports(before, keys[0], between) && Run(between, keys[1..], after);
      ImportKeeps(before, keys[0], between);
      RunKeeps(between, keys[1..], after);
      FieldsOfFirst(keys);
    } else {
      assert FieldsOf(keys) == {};
    }
  }

  /** Parsed keys have hosts, so the next load returns the list as it was saved. */
  lemma {:induction false} RunLoadsBack(before: seq<Server>, keys: seq<Server>, after: seq<Server>)
    requires Run(before, keys, after) && AllHosted(before) && AllHosted(keys)
    ensures Usable(after) == after
    decreases |keys|
  {
    if |keys| > 0 {
      var between :| Imports(before, keys[0], between) && Run(between, keys[1..], after);
      ImportKeepsHosted(before, keys[0], between);
      assert AllHosted(keys[1..]) by {
        assert forall i | 0 <= i < |keys| - 1 :: keys[1..][i] == keys[i + 1];
      }
      RunLoadsBack(between, keys[1..], after);
    } else {
      UsableKeepsHosted(after);
    }
  }

  lemma ImportKeepsHosted(before: seq<Server>, key: Server, after: seq<Server>)
    requires Imports(before, key, after) && AllHosted(before) && key.host != ""
    ensures AllHosted(after)
  {
    if KeyFields(key) !in FieldsOf(before) {
      forall i | 0 <= i < |after| ensures after[i].host != "" {
        if i < |before| {
          assert after[i] == after[..|before|][i] == before[i];
        } else {
          assert SameExceptLabel(after[i], key);
        }
      }
    }
  }

  lemma FieldsOfFirst(keys: seq<Server>)
    requires |keys| > 0
    ensures FieldsOf(keys) == {KeyFields(keys[0])} + FieldsOf(keys[1..])
  {
    forall f | f in FieldsOf(keys) ensures f in {KeyFields(keys[0])} + FieldsOf(keys[1..]) {
      var i :| 0 <= i < |keys| && KeyFields(keys[i]) == f;
      assert i > 0 ==> keys[1..][i - 1] == keys[i];
    }
    forall f | f in FieldsOf(keys[1..]) ensures f in FieldsOf(keys) {
      var i :| 0 <= i < |keys| - 1 && KeyFields(keys[1..][i]) == f;
      assert keys[i + 1] == keys[1..][i];
    }
  }

  lemma {:induction false} DistinctCount(servers: seq<Server>)
    requires Distinct(servers)
    ensures |FieldsOf(servers)| == |servers|
  {
    if |servers| > 0 {
      DistinctCount(servers[1..]);
      FieldsOfFirst(servers);
      assert KeyFields(servers[0]) !in FieldsOf(servers[1..]);
    } else {
      assert FieldsOf(servers) == {};
    }
  }

  /** Importing into an empty store leaves one entry per different key, however often and in whatever order. */
  lemma EmptyStoreCounts(keys: seq<Server>, after: seq<Server>)
    requires Run([], keys, after)
    ensures |after| == |FieldsOf(keys)|
  {
    RunKeeps([], keys, after);
    DistinctCount(after);
  }

  /** A key that any earlier import brought in is a duplicate from then on. */
  lemma LaterDuplicateChangesNothing(
      before: seq<Server>, keys: seq<Server>, after: seq<Server>, again: Server, last: seq<Server>)
    requires Run(before, keys, after) && Imports(after, again, last)
    requires KeyFields(again) in FieldsOf(keys)
    ensures last == after
  {
    RunKeeps(before, keys, after);
  }

  // ── Finding ────────────────────────────────────────────────────────────────

  /** _find_server; `lower` is str.lower. */
  function FindServer(lower: string -> string, servers: seq<Server>, name: string): Option<nat> {
    Lookup.ExactOrOnly(
      servers, (s: Server) => s.name == name, (s: Server) => Contains(lower(s.name), lower(name)))
  }

  /** The name of entry i has the wanted one in it, up to case. */
  ghost predicate Fits(lower: string -> string, servers: seq<Server>, name: string, i: nat) {
    && i < |servers|
    && exists a, b :: 0 <= a <= b <= |lower(servers[i].name)| && lower(servers[i].name)[a..b] == lower(name)
  }

  lemma FitsIff(lower: string -> string, servers: seq<Server>, name: string, i: nat)
    requires i < |servers|
    ensures Fits(lower, servers, name, i) <==> Contains(lower(servers[i].name), lower(name))
  {
    ContainsIff(lower(servers[i].name), lower(name));
  }

  /** What a name finds: the first entry called that, or else the only one with the name in it. */
  lemma FoundIff(lower: string -> string, servers: seq<Server>, name: string, i: nat)
    requires i < |servers|
    ensures FindServer(lower, servers, name) == Some(i) <==>
      || (servers[i].name == name && forall j | 0 <= j < i :: servers[j].name != name)
      || ((forall j | 0 <= j < |servers| :: servers[j].name != name)
          && Fits(lower, servers, name, i) && forall j: nat | j < |servers| && Fits(lower, servers, name, j) :: j == i)
  {
    var exact := (s: Server) => s.name == name;
    var loose := (s: Server) => Contains(lower(s.name), lower(name));
    Lookup.PicksIff(servers, exact, loose, i);
    forall j: nat | j < |servers| ensures Fits(lower, servers, name, j) <==> loose(servers[j]) {
      FitsIff(lower, servers, name, j);
    }
  }

  /** After any imports into a store of distinct names, every stored name finds its own entry. */
  lemma StoredNameFindsItself(
      lower: string -> string, before: seq<Server>, keys: seq<Server>, after: seq<Server>, i: nat)
    requires Distinct(before) && Run(before, keys, after) && i < |after|
    ensures FindServer(lower, after, after[i].name) == Some(i)
  {
    RunKeeps(before, keys, after);
    var exact := (s: Server) => s.name == after[i].name;
    Lookup.FirstWhereIff(after, exact, i);
  }

  /** A name that is not stored selects nothing when two entries could be meant. */
  lemma AmbiguousNameFindsNothing(lower: string -> string, servers: seq<Server>, name: string, i: nat, j: nat)
    requires i < j < |servers| && name !in Names(servers)
    requires Contains(lower(servers[i].name), lower(name)) && Contains(lower(servers[j].name), lower(name))
    ensures FindServer(lower, servers, name) == None
  {
    var exact := (s: Server) => s.name == name;
    var loose := (s: Server) => Contains(lower(s.name), lower(name));
    forall k | 0 <= k < |servers| ensures !exact(servers[k]) {
      assert servers[k].name in Names(servers);
    }
    Lookup.AmbiguousPicksNothing(servers, exact, loose, i, j);
  }
}
