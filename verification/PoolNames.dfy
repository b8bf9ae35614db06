/** The pool name "<service>-pool-<port>-<protocol>": how it is printed and how it is read back. */
module PoolNames {
  import opened Strings

  const POOL := "-pool-"

  /** The name both the Service path and the Endpoints path print. */
  function Print(prefix: string, port: string, protocol: string): string {
    prefix + POOL + port + "-" + protocol
  }

  /** Reading a name back; indexing past the end of either split is a run-time panic. */
  datatype Parsed = Panic | Ok(port: string, protocol: string)

  function Parse(name: string): Parsed {
    var s := Split(name, POOL);
    if |s| < 2 then Panic
    else
      var s1 := Split(s[1], "-");
      if |s1| < 2 then Panic else Ok(s1[0], s1[1])
  }

  /** The marker does not begin inside the service name. */
  ghost predicate CleanPrefix(prefix: string) {
    Index(prefix + "-", POOL) < 0
  }

  /** The text after the first marker inside the service name begins with the very port and protocol sought. */
  ghost predicate Echoes(prefix: string, port: string, protocol: string) {
    var i := Index(prefix, POOL);
    0 <= i && port + "-" + protocol + "-" <= prefix[i + 6..] + "-"
  }

  /** Exactly when a printed name reads back as its own port and protocol. */
  ghost predicate Recoverable(prefix: string, port: string, protocol: string) {
    && Free(port, '-')
    && Free(protocol, '-')
    && (CleanPrefix(prefix) || (protocol != "pool" && Echoes(prefix, port, protocol)))
  }

  /** The six characters of the marker, spelled out. */
  lemma {:induction false} Marker(s: string, i: nat)
    ensures At(s, POOL, i) <==>
            (i + 6 <= |s| && s[i] == '-' && s[i + 1] == 'p' && s[i + 2] == 'o' && s[i + 3] == 'o' && s[i + 4] == 'l'
              && s[i + 5] == '-')
  {
    if i + 6 <= |s| {
      assert s[i..i + 6] == [s[i], s[i + 1], s[i + 2], s[i + 3], s[i + 4], s[i + 5]];
    }
  }

  /** What a name holds between its first marker, at `i`, and the next one. */
  function Segment(name: string, i: nat): string
    requires i + 6 <= |name|
  {
    var rest := name[i + 6..];
    var k := Index(rest, POOL);
    if k < 0 then rest else rest[..k]
  }

  /** A name reads back as the first two words of the segment after its first marker. */
  lemma {:induction false} ParseSegment(name: string, i: nat, a: string, b: string)
    requires Index(name, POOL) == i
    ensures Parse(name) == Ok(a, b) <==> (Free(a, '-') && Free(b, '-') && a + "-" + b + "-" <= Segment(name, i) + "-")
  {
    assert Split(name, POOL)[1] == Split(name[i + 6..], POOL)[0] == Segment(name, i);
    SplitTwo(Segment(name, i), '-', a, b);
  }

  /** Where the first marker of a printed name is. */
  lemma {:induction false} FirstMarker(prefix: string, tail: string)
    ensures var i := Index(prefix + POOL + tail, POOL);
      0 <= i && i == (if CleanPrefix(prefix) then |prefix| else if Index(prefix, POOL) < 0 then |prefix| - 5
        else Index(prefix, POOL))
  {
    var name := prefix + POOL + tail;
    var dashed := prefix + "-";
    assert forall j :: 0 <= j <= |prefix| ==> name[j] == dashed[j];
    assert forall j :: 0 <= j < |prefix| ==> prefix[j] == dashed[j];
    assert forall j :: 0 <= j < 6 ==> name[|prefix| + j] == POOL[j];
    Marker(name, |prefix|);
    var i, j, l := Index(name, POOL), Index(dashed, POOL), Index(prefix, POOL);
    Marker(name, i);
    Marker(dashed, i);
    Marker(prefix, i);
    if j >= 0 {
      Marker(dashed, j);
      Marker(name, j);
      Marker(prefix, j);
    }
    if l >= 0 {
      Marker(prefix, l);
      Marker(name, l);
      Marker(dashed, l);
    }
  }

  /** Two hyphen-free words joined by a hyphen hold no marker. */
  lemma {:induction false} NoMarker(port: string, protocol: string)
    requires Free(port, '-') && Free(protocol, '-')
    ensures Index(port + "-" + protocol, POOL) < 0
  {
    var t := port + "-" + protocol;
    var k := Index(t, POOL);
    assert forall j :: 0 <= j < |t| && t[j] == '-' ==> j == |port|;
    if k >= 0 {
      Marker(t, k);
    }
  }

  /** In `a-b-...` the first marker is at the first hyphen if `b` is the word "pool", and past `b` otherwise. */
  lemma {:induction false} MarkerPastWords(rest: string, a: string, b: string)
    requires Free(a, '-') && Free(b, '-') && a + "-" + b + "-" <= rest
    ensures var k := Index(rest, POOL);
      if b == "pool" then k == |a| else k < 0 || k >= |a| + 1 + |b|
  {
    var w := a + "-" + b + "-";
    assert forall i :: 0 <= i < |w| ==> rest[i] == w[i];
    assert forall i :: 0 <= i < |b| ==> rest[|a| + 1 + i] == b[i];
    assert forall i :: 0 <= i < |w| && w[i] == '-' ==> i == |a| || i == |a| + 1 + |b|;
    var k := Index(rest, POOL);
    Marker(rest, |a|);
    if k >= 0 {
      Marker(rest, k);
    }
    if k == |a| {
      assert w[|a| + 1 + |b|] == '-';
      assert |b| == 4;
      assert b == [rest[|a| + 1], rest[|a| + 2], rest[|a| + 3], rest[|a| + 4]];
    }
  }

  /**
   * Of a text beginning "pool-", what precedes its first marker does not begin with "<port>-" for that text's own port.
   */
  lemma {:induction false} OverlapSegment(port: string, protocol: string)
    requires Free(port, '-')
    ensures var rest := "pool-" + port + "-" + protocol;
      var k := Index(rest, POOL);
      var seg := if k < 0 then rest else rest[..k];
      !(port + "-" <= seg)
  {
    if port + "-" <= "pool-" + port + "-" + protocol {
      FirstWordIsPool(port, port + "-" + protocol);
      PoolPoolMarker(protocol);
    }
  }

  lemma {:induction false} FirstWordIsPool(port: string, tail: string)
    requires Free(port, '-') && port + "-" <= "pool-" + tail
    ensures port == "pool"
  {
    var rest := "pool-" + tail;
    FirstCut(port, rest[|port| + 1..], "pool", tail, '-');
  }

  lemma {:induction false} PoolPoolMarker(protocol: string)
    ensures var k := Index("pool-" + "pool" + "-" + protocol, POOL); 0 <= k <= 4
  {
    Marker("pool-" + "pool" + "-" + protocol, 4);
  }

  /** The service name holds no marker of its own but ends in "-pool": the name never reads back. */
  lemma {:induction false} OverlapNeverReadsBack(prefix: string, port: string, protocol: string)
    requires !CleanPrefix(prefix) && Index(prefix, POOL) < 0
    ensures Parse(Print(prefix, port, protocol)) != Ok(port, protocol)
  {
    var name := Print(prefix, port, protocol);
    assert name == prefix + POOL + (port + "-" + protocol);
    FirstMarker(prefix, port + "-" + protocol);
    OverlapRest(prefix, port, protocol);
    if Free(port, '-') {
      OverlapSegment(port, protocol);
    }
    NeverRead(name, |prefix| - 5, port, protocol);
  }

  lemma {:induction false} NeverRead(name: string, i: nat, port: string, protocol: string)
    requires Index(name, POOL) == i && (Free(port, '-') ==> !(port + "-" <= Segment(name, i)))
    ensures Parse(name) != Ok(port, protocol)
  {
    ParseSegment(name, i, port, protocol);
    if Free(port, '-') {
      WordsAreNoPrefix(port, protocol, Segment(name, i));
    }
  }

  lemma {:induction false} OverlapRest(prefix: string, port: string, protocol: string)
    requires |prefix| >= 5
    ensures Print(prefix, port, protocol)[|prefix| + 1..] == "pool-" + port + "-" + protocol
  {
    assert Print(prefix, port, protocol) == (prefix + "-") + ("pool-" + port + "-" + protocol);
  }

  lemma {:induction false} WordsAreNoPrefix(port: string, protocol: string, seg: string)
    requires !(port + "-" <= seg)
    ensures !(port + "-" + protocol + "-" <= seg + "-")
  {
    if port + "-" + protocol + "-" <= seg + "-" {
      WordsPrefix(port, protocol, seg);
    }
  }

  lemma {:induction false} WordsPrefix(port: string, protocol: string, seg: string)
    requires port + "-" + protocol + "-" <= seg + "-"
    ensures port + "-" <= seg
  {
    var w := port + "-" + protocol + "-";
    assert port + "-" == w[..|port| + 1] == (seg + "-")[..|port| + 1];
  }

  /** Up to where the first marker of `q-pool-...` lets the two words through. */
  lemma {:induction false} InnerSegment(q: string, tail: string, port: string, protocol: string)
    requires Free(port, '-') && Free(protocol, '-')
    ensures var rest := q + POOL + tail;
      var k := Index(rest, POOL);
      var w := port + "-" + protocol + "-";
      0 <= k && (w <= rest[..k] + "-" <==> protocol != "pool" && w <= q + "-")
  {
    var rest := q + POOL + tail;
    Marker(rest, |q|);
    var k := Index(rest, POOL);
    Marker(rest, k);
    var w := port + "-" + protocol + "-";
    assert rest[..k] + "-" == rest[..k + 1];
    assert q + "-" == rest[..|q| + 1];
    if w <= rest {
      MarkerPastWords(rest, port, protocol);
    }
    TakePrefix(rest, w, k + 1);
    TakePrefix(rest, w, |q| + 1);
  }

  lemma {:induction false} TakePrefix(s: string, w: string, n: nat)
    requires n <= |s|
    ensures w <= s[..n] <==> |w| <= n && w <= s
  {
    if |w| <= n {
      assert s[..n][..|w|] == s[..|w|];
    }
  }

  /** The service name holds a marker: what is read back lies inside the service name. */
  lemma {:induction false} InnerMarkerIsNotClean(prefix: string)
    requires 0 <= Index(prefix, POOL)
    ensures !CleanPrefix(prefix) && Index(prefix, POOL) + 6 <= |prefix|
  {
    var i := Index(prefix, POOL);
    Marker(prefix, i);
    Marker(prefix + "-", i);
  }

  lemma {:induction false} InnerMarkerReadsBack(prefix: string, port: string, protocol: string)
    requires 0 <= Index(prefix, POOL)
    ensures !CleanPrefix(prefix)
    ensures Parse(Print(prefix, port, protocol)) == Ok(port, protocol)
        <==> (Free(port, '-') && Free(protocol, '-') && protocol != "pool" && Echoes(prefix, port, protocol))
  {
    var tail := port + "-" + protocol;
    var name := Print(prefix, port, protocol);
    assert name == prefix + POOL + tail;
    FirstMarker(prefix, tail);
    var i := Index(prefix, POOL);
    InnerMarkerIsNotClean(prefix);
    ParseSegment(name, i, port, protocol);
    assert (prefix + POOL + tail)[i + 6..] == prefix[i + 6..] + POOL + tail;
    if Free(port, '-') && Free(protocol, '-') {
      InnerSegment(prefix[i + 6..], tail, port, protocol);
    }
  }

  /**
   * The round trip, decided for every service name, port and protocol: a printed pool name reads back
   * as its own port and protocol if and only if `Recoverable` holds.
   */
  lemma {:induction false} RoundTrip(prefix: string, port: string, protocol: string)
    ensures Parse(Print(prefix, port, protocol)) == Ok(port, protocol) <==> Recoverable(prefix, port, protocol)
  {
    if CleanPrefix(prefix) {
      var name := Print(prefix, port, protocol);
      assert name == prefix + POOL + (port + "-" + protocol);
      FirstMarker(prefix, port + "-" + protocol);
      ParseSegment(name, |prefix|, port, protocol);
      assert name[|prefix| + 6..] == port + "-" + protocol;
      if Free(port, '-') && Free(protocol, '-') {
        NoMarker(port, protocol);
        assert port + "-" + protocol + "-" == Segment(name, |prefix|) + "-";
      }
    } else if Index(prefix, POOL) < 0 {
      OverlapNeverReadsBack(prefix, port, protocol);
    } else {
      InnerMarkerReadsBack(prefix, port, protocol);
    }
  }

  // ---------- when reading back panics ----------

  /** The first hyphen of a text starts a marker. */
  ghost predicate Trips(s: string) {
    exists h :: 0 <= h <= |s| && At(s, POOL, h) && Free(s[..h], '-')
  }

  /**
   * Exactly when reading a printed name back runs past the end: the first hyphen after the first marker of the
   * name starts another marker. Where the first marker is depends on the service name.
   */
  ghost predicate Panics(prefix: string, port: string, protocol: string) {
    var i := Index(prefix, POOL);
    if 0 <= i then Free(prefix[i + 6..], '-') || Trips(prefix[i + 6..] + "-")
    else if CleanPrefix(prefix) then Trips(port + "-" + protocol)
    else Trips("pool-" + port + "-" + protocol)
  }

  /** A name cannot be read back when the segment after its first marker is a single word. */
  lemma {:induction false} SegmentPanics(name: string, i: nat)
    requires Index(name, POOL) == i
    ensures Parse(name) == Panic <==> Free(Segment(name, i), '-')
  {
    var seg := Segment(name, i);
    assert Split(name, POOL)[1] == Split(name[i + 6..], POOL)[0] == seg;
    if Free(seg, '-') {
      SplitFree(seg, '-');
    } else {
      var h, t := SplitHead(seg, '-');
    }
  }

  lemma {:induction false} FirstHyphen(s: string, h: nat, j: nat)
    requires h <= |s| && j < |s| && Free(s[..h], '-') && s[j] == '-'
    ensures h <= j
  {
    assert forall i :: 0 <= i < h ==> s[..h][i] != '-' && s[i] == s[..h][i];
  }

  /** The text before the first marker is a single word exactly when the first hyphen starts that marker. */
  lemma {:induction false} WordBeforeMarker(rest: string)
    requires '-' in rest
    ensures var k := Index(rest, POOL);
      Free(if k < 0 then rest else rest[..k], '-') <==> Trips(rest)
  {
    var k := Index(rest, POOL);
    if k >= 0 {
      Marker(rest, k);
    }
    if Trips(rest) {
      var h :| 0 <= h <= |rest| && At(rest, POOL, h) && Free(rest[..h], '-');
      FirstHyphen(rest, h, k);
    }
  }

  lemma {:induction false} AfterMarker(name: string, i: nat, rest: string)
    requires Index(name, POOL) == i && name[i + 6..] == rest && '-' in rest
    ensures Parse(name) == Panic <==> Trips(rest)
  {
    SegmentPanics(name, i);
    WordBeforeMarker(rest);
  }

  /** A text `q-pool-...` trips at its first hyphen exactly when `q` is a single word or `q-` trips. */
  lemma {:induction false} InnerTrips(q: string, tail: string)
    ensures Trips(q + POOL + tail) <==> Free(q, '-') || Trips(q + "-")
  {
    var rest, dashed := q + POOL + tail, q + "-";
    assert forall j :: 0 <= j <= |q| ==> rest[j] == dashed[j];
    if Free(q, '-') {
      Marker(rest, |q|);
      assert rest[..|q|] == q;
      assert rest[|q|..|q| + 6] == POOL;
      assert At(rest, POOL, |q|);
    }
    if Trips(dashed) {
      var h :| 0 <= h <= |dashed| && At(dashed, POOL, h) && Free(dashed[..h], '-');
      Marker(dashed, h);
      Marker(rest, h);
      assert rest[..h] == dashed[..h];
    }
    if Trips(rest) {
      var h :| 0 <= h <= |rest| && At(rest, POOL, h) && Free(rest[..h], '-');
      Marker(rest, h);
      Marker(dashed, h);
      FirstHyphen(rest, h, |q|);
      assert rest[..h] == dashed[..h];
      assert h == |q| ==> q == rest[..h];
    }
  }

  /** The parser panics on a printed name if and only if `Panics` holds of its parts. */
  lemma {:induction false} PanicsExactly(prefix: string, port: string, protocol: string)
    ensures Parse(Print(prefix, port, protocol)) == Panic <==> Panics(prefix, port, protocol)
  {
    var tail := port + "-" + protocol;
    var name := Print(prefix, port, protocol);
    assert name == prefix + POOL + tail;
    FirstMarker(prefix, tail);
    assert tail[|port|] == '-';
    var i := Index(prefix, POOL);
    if 0 <= i {
      InnerMarkerIsNotClean(prefix);
      AfterInnerMarker(prefix, i, tail);
    } else if CleanPrefix(prefix) {
      assert name[|prefix| + 6..] == tail;
      AfterMarker(name, |prefix|, tail);
    } else {
      OverlapRest(prefix, port, protocol);
      var rest := "pool-" + port + "-" + protocol;
      assert rest[4] == '-';
      AfterMarker(name, |prefix| - 5, rest);
    }
  }

  lemma {:induction false} AfterInnerMarker(prefix: string, i: nat, tail: string)
    requires i + 6 <= |prefix| && Index(prefix + POOL + tail, POOL) == i
    ensures Parse(prefix + POOL + tail) == Panic <==> Free(prefix[i + 6..], '-') || Trips(prefix[i + 6..] + "-")
  {
    var q := prefix[i + 6..];
    var rest := q + POOL + tail;
    assert (prefix + POOL + tail)[i + 6..] == rest;
    assert rest[|q|] == '-';
    AfterMarker(prefix + POOL + tail, i, rest);
    InnerTrips(q, tail);
  }

  /**
   * For a hyphen-free port and protocol: a service name with a marker inside panics when a single word, or another
   * marker at once, follows it ("car-pool-api", "my-car-pool-api"); one without panics only when it ends in "-pool"
   * and the port is called "pool".
   */
  lemma {:induction false} WordsPanicExactly(prefix: string, port: string, protocol: string)
    requires Free(port, '-') && Free(protocol, '-')
    ensures var i := Index(prefix, POOL);
      Parse(Print(prefix, port, protocol)) == Panic <==>
      if 0 <= i then Free(prefix[i + 6..], '-') || Trips(prefix[i + 6..] + "-")
      else !CleanPrefix(prefix) && port == "pool"
  {
    PanicsExactly(prefix, port, protocol);
    WordsNeverTrip(port, protocol);
    OverlapTrips(port, protocol);
  }

  lemma {:induction false} WordsNeverTrip(port: string, protocol: string)
    requires Free(port, '-') && Free(protocol, '-')
    ensures !Trips(port + "-" + protocol)
  {
    NoMarker(port, protocol);
  }

  lemma {:induction false} OverlapTrips(port: string, protocol: string)
    requires Free(port, '-')
    ensures Trips("pool-" + port + "-" + protocol) <==> port == "pool"
  {
    var rest := "pool-" + port + "-" + protocol;
    Marker(rest, 4);
    if port == "pool" {
      assert Free(rest[..4], '-');
    }
    if Trips(rest) {
      var h :| 0 <= h <= |rest| && At(rest, POOL, h) && Free(rest[..h], '-');
      Marker(rest, h);
      FirstHyphen(rest, h, 4);
      FirstCut(port, protocol, "pool", rest[10..], '-');
    }
  }

  /** Where the last `c` of a text is settles what follows it. */
  lemma {:induction false} LastCut(a: string, b: string, x: string, y: string)
    requires a + "-" + x == b + "-" + y && Free(x, '-') && Free(y, '-')
    ensures a == b && x == y
  {
    var s := a + "-" + x;
    assert s[|a|] == '-' && s[|b|] == '-';
    assert forall i :: |a| < i < |s| ==> s[i] == x[i - |a| - 1];
    assert forall i :: |b| < i < |s| ==> s[i] == y[i - |b| - 1];
    assert a == s[..|a|] && b == s[..|b|] && x == s[|a| + 1..] && y == s[|b| + 1..];
  }

  // ---------- distinct names ----------

  /** No marker begins at the hyphen before the port or inside the port. */
  predicate MarkerFree(port: string) {
    Index("-" + port, POOL) < 0
  }

  lemma {:induction false} WordsAreMarkerFree(port: string)
    requires Free(port, '-')
    ensures MarkerFree(port)
  {
    var dashed := "-" + port;
    var k := Index(dashed, POOL);
    assert forall j :: 1 <= j < |dashed| ==> dashed[j] == port[j - 1] != '-';
    if k >= 0 {
      Marker(dashed, k);
    }
  }

  /** With a marker-free port, the last marker of a name without its protocol ends the service name. */
  lemma {:induction false} SameService(n1: string, p1: string, n2: string, p2: string)
    requires n1 + POOL + p1 == n2 + POOL + p2 && MarkerFree(p1) && |n1| <= |n2|
    ensures n1 == n2 && p1 == p2
  {
    var b, dashed := n1 + POOL + p1, "-" + p1;
    assert b == n2 + POOL + p2;
    assert forall j :: 0 <= j < |dashed| ==> b[|n1| + 5 + j] == dashed[j];
    assert forall j :: 0 <= j < 6 ==> b[|n1| + j] == POOL[j];
    assert b[|n2|..|n2| + 6] == POOL;
    Marker(b, |n2|);
    if |n1| + 5 <= |n2| {
      Marker(dashed, |n2| - |n1| - 5);
    }
    assert n1 == b[..|n1|] && n2 == b[..|n2|] && p1 == b[|n1| + 6..] && p2 == b[|n2| + 6..];
  }

  /**
   * Distinct (service, port, protocol) triples get distinct names whenever the ports are marker-free and the
   * protocols hyphen-free; nothing is asked of the service name.
   */
  lemma {:induction false} Injective(n1: string, p1: string, r1: string, n2: string, p2: string, r2: string)
    requires MarkerFree(p1) && Free(r1, '-') && MarkerFree(p2) && Free(r2, '-')
    requires Print(n1, p1, r1) == Print(n2, p2, r2)
    ensures n1 == n2 && p1 == p2 && r1 == r2
  {
    LastCut(n1 + POOL + p1, n2 + POOL + p2, r1, r2);
    if |n1| <= |n2| {
      SameService(n1, p1, n2, p2);
    } else {
      SameService(n2, p2, n1, p1);
    }
  }

  lemma {:induction false} CutAtMarker(n: string, dashed: string, k: nat)
    requires At(dashed, POOL, k)
    ensures (n + "-pool") + dashed == (n + "-pool" + dashed[..k]) + POOL + dashed[k + 6..]
  {
    assert dashed == dashed[..k] + dashed[k..k + 6] + dashed[k + 6..];
  }

  /** Any other port makes every service collide with another one, whose port is marker-free. */
  lemma {:induction false} Collision(n: string, port: string, protocol: string) returns (n': string, port': string)
    requires !MarkerFree(port)
    ensures n' != n && MarkerFree(port') && Print(n', port', protocol) == Print(n, port, protocol)
    ensures |n'| > |n|
    decreases |port|
  {
    var dashed := "-" + port;
    var k := Index(dashed, POOL);
    Marker(dashed, k);
    n', port' := n + "-pool" + dashed[..k], dashed[k + 6..];
    CutAtMarker(n, dashed, k);
    assert n + POOL + port == (n + "-pool") + dashed;
    assert Print(n', port', protocol) == Print(n, port, protocol);
    if !MarkerFree(port') {
      n', port' := Collision(n', port', protocol);
    }
  }

  /** No other (service, port, protocol), with a marker-free port, prints a name of this port. */
  ghost predicate NeverCollides(port: string) {
    forall n, r, n', p', r' :: Free(r, '-') && Free(r', '-') && MarkerFree(p') && Print(n, port, r) == Print(n', p', r')
      ==> n == n' && port == p' && r == r'
  }

  /** Marker-free ports are exactly those whose names are never shared. */
  lemma {:induction false} InjectiveExactly(port: string)
    ensures MarkerFree(port) <==> NeverCollides(port)
  {
    if MarkerFree(port) {
      forall n, r, n', p', r' | Free(r, '-') && Free(r', '-') && MarkerFree(p')
        && Print(n, port, r) == Print(n', p', r')
        ensures n == n' && port == p' && r == r'
      {
        Injective(n, port, r, n', p', r');
      }
    } else {
      var n', p' := Collision("", port, "");
      assert Print("", port, "") == Print(n', p', "");
    }
  }
}
