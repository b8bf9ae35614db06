/** What the deletion of a service does on the far side. */
module Deletions {
  import opened Strings
  import opened Model
  import opened PoolNames
  import opened Rest
  import opened Sync
  import opened Effects
  import opened Runs
  import opened Guarantees

  // ---------- the pools of a service ----------

  /** A pool name that the service prints for a marker-free port and a hyphen-free protocol. */
  ghost predicate NamedBy(service: string, pool: string) {
    exists port, protocol :: MarkerFree(port) && Free(protocol, '-')
                             && pool == service + "-pool-" + port + "-" + protocol
  }

  /** A text up to its last hyphen, and what follows it. */
  lemma {:induction false} LastHyphen(s: string) returns (tail: string)
    requires '-' in s
    ensures Free(tail, '-') && s == BeforeLast(s) + "-" + tail
  {
    var n := |s| - 1;
    assert s == s[..n] + [s[n]];
    if s[n] == '-' {
      tail := "";
    } else {
      var t := LastHyphen(s[..n]);
      tail := t + [s[n]];
    }
  }

  lemma {:induction false} BeforeLastOf(a: string, b: string)
    requires Free(b, '-')
    ensures BeforeLast(a + "-" + b) == a
  {
    var s := a + "-" + b;
    if b == "" {
      assert s[..|s| - 1] == a;
    } else {
      assert s[..|s| - 1] == a + "-" + b[..|b| - 1];
      assert s[|s| - 1] == b[|b| - 1];
      BeforeLastOf(a, b[..|b| - 1]);
    }
  }

  lemma {:induction false} OwnsExactly(service: string, pool: string)
    ensures Owns(service, pool) <==> NamedBy(service, pool)
  {
    var head := service + "-pool-";
    if Owns(service, pool) {
      var rest := pool[|head|..];
      var protocol := LastHyphen(rest);
      assert pool == head + rest;
      assert pool == service + "-pool-" + BeforeLast(rest) + "-" + protocol;
    }
    if NamedBy(service, pool) {
      var port, protocol :| MarkerFree(port) && Free(protocol, '-')
        && pool == service + "-pool-" + port + "-" + protocol;
      assert pool[|head|..] == port + "-" + protocol;
      BeforeLastOf(port, protocol);
    }
  }

  // ---------- the requests of a deletion ----------

  /** The pool belongs to the service and was chosen to go with its virtual service. */
  ghost predicate GoesWith(key: NamespaceName, gone: set<string>, q: NamespaceName) {
    q.ns == key.ns && q.name in gone && NamedBy(key.name, q.name)
  }

  /** What deleting the virtual service of `key` makes of the far side. */
  ghost predicate ServiceErased(was: Remote, now: Remote, key: NamespaceName, gone: set<string>) {
    && key !in now.vss && (forall j :: j != key ==> SameAt(was.vss, now.vss, j))
    && forall q :: if q in was.pools && GoesWith(key, gone, q) then q !in now.pools else SameAt(was.pools, now.pools, q)
  }

  /**
   * A deletion looks the virtual service up, and deletes it if it was found. When the lookup fails that is the only
   * request, nothing changes, and the key goes back on its queue. Otherwise there are two requests and no error,
   * whatever becomes of the second. If that applies, the virtual service of this key is gone, with those of its own
   * pools that the far side chose, and nothing else is; if it does not, the far side is as it was.
   */
  lemma {:induction false} DeletionReaches(oracle: Oracle, st: State, key: NamespaceName, ran: Ran)
    requires ran == DeleteService(oracle, st, key) && ran.Ran?
    ensures var get, del := Fate(oracle, st.net.clock), Fate(oracle, st.net.clock + 1);
      if get.verdict.Failure?
      then Requeues(ran.err) && ran.st == st.(net := Net(st.net.remote, st.net.clock + 1))
      else
        && ran.err == NoError && ran.st.net.clock == st.net.clock + 2
        && if del.Applied() then ServiceErased(st.net.remote, ran.st.net.remote, key, del.gone)
           else ran.st.net.remote == st.net.remote
  {
    forall pool
      ensures Owns(key.name, pool) <==> NamedBy(key.name, pool)
    {
      OwnsExactly(key.name, pool);
    }
  }

  /** No other service loses a pool of its own. */
  lemma {:induction false} OthersKeepTheirPools(oracle: Oracle, st: State, key: NamespaceName, ran: Ran,
                                                other: NamespaceName, pool: string)
    requires ran == DeleteService(oracle, st, key) && ran.Ran? && other != key && OwnedBy(other.name, pool)
    ensures SameAt(st.net.remote.pools, ran.st.net.remote.pools, NamespaceName(other.ns, pool))
  {
    DeletionReaches(oracle, st, key, ran);
    if other.ns == key.ns && NamedBy(key.name, pool) {
      var port, protocol :| CleanPort(port) && CleanWord(protocol) && pool == Print(other.name, port, protocol);
      var port', protocol' :| MarkerFree(port') && Free(protocol', '-')
        && pool == key.name + "-pool-" + port' + "-" + protocol';
      Injective(other.name, port, protocol, key.name, port', protocol');
    }
  }

  /** After a deletion the virtual service is left exactly when it was there and the delete request had no effect. */
  lemma {:induction false} LeftBehind(oracle: Oracle, w: World, key: NamespaceName, ran: Ran)
    requires Reachable(oracle, w) && ran == DeleteService(oracle, w.st, key) && ran.Ran? && ran.err == NoError
    ensures key !in ran.st.vss
    ensures key in ran.st.net.remote.vss
      <==> key in w.st.net.remote.vss && !Fate(oracle, w.st.net.clock + 1).Applied()
  {
    DeletionReaches(oracle, w.st, key, ran);
  }
}
