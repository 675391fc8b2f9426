/**
  The sender's connection pool (`tcp_pool.go`): a bounded FIFO of open
  connections. `Init` fills it by dialling, `Write` takes the front connection,
  writes through it and puts it back at the end, and `Close` drains it, closing
  every connection it takes out.

  The channel is modelled as a `seq` of connection ids in FIFO order together
  with its capacity; the network is a `Net` object whose dial and write
  outcomes come from oracles and which records every dial, write and close.
*/
module Pool {
  import opened Wire
  import opened Io

  /** Connection number `k` is the one the `k`-th dial opened. */
  type ConnId = nat

  /** `TcpPoolOpts` values: the two option constructors of the package. */
  datatype PoolOption = WithPoolSize(size: int) | WithAddress(address: string)

  datatype Config = Config(n: int, network: string, address: string)

  /** What `NewTcpPool` starts from. */
  function Defaults(): (c: Config)
    ensures c.n == 5 && c.network == "tcp" && c.address == ":8080"
  {
    Config(5, "tcp", ":8080")
  }

  /** A size option panics unless its size is positive. */
  predicate NoPanic(opts: seq<PoolOption>) {
    forall i :: 0 <= i < |opts| && opts[i].WithPoolSize? ==> opts[i].size > 0
  }

  /** The effect of one option closure on the fields. */
  function ApplyOption(c: Config, opt: PoolOption): Config {
    match opt
    case WithPoolSize(size) => c.(n := size)
    case WithAddress(address) => c.(address := address)
  }

  /** The options applied in order to the defaults. */
  function Configure(opts: seq<PoolOption>): Config {
    if opts == [] then Defaults() else ApplyOption(Configure(opts[..|opts| - 1]), opts[|opts| - 1])
  }

  /** The last size option decides the size. */
  lemma {:induction false} LastSizeWins(opts: seq<PoolOption>, i: nat)
    requires i < |opts| && opts[i].WithPoolSize?
    requires forall j :: i < j < |opts| ==> !opts[j].WithPoolSize?
    ensures Configure(opts).n == opts[i].size
  {
    if i < |opts| - 1 {
      LastSizeWins(opts[..|opts| - 1], i);
    }
  }

  /** Without a size option the size stays 5. */
  lemma {:induction false} DefaultSize(opts: seq<PoolOption>)
    requires forall j :: 0 <= j < |opts| ==> !opts[j].WithPoolSize?
    ensures Configure(opts).n == 5
  {
    if opts != [] {
      DefaultSize(opts[..|opts| - 1]);
    }
  }

  /** The last address option decides the address. */
  lemma {:induction false} LastAddressWins(opts: seq<PoolOption>, i: nat)
    requires i < |opts| && opts[i].WithAddress?
    requires forall j :: i < j < |opts| ==> !opts[j].WithAddress?
    ensures Configure(opts).address == opts[i].address
  {
    if i < |opts| - 1 {
      LastAddressWins(opts[..|opts| - 1], i);
    }
  }

  /** Without an address option the address stays ":8080"; no option changes
      the network. */
  lemma {:induction false} DefaultAddress(opts: seq<PoolOption>)
    requires forall j :: 0 <= j < |opts| ==> !opts[j].WithAddress?
    ensures Configure(opts).address == ":8080" && Configure(opts).network == "tcp"
  {
    if opts != [] {
      DefaultAddress(opts[..|opts| - 1]);
    }
  }

  /** Options that do not panic leave a positive size. */
  lemma {:induction false} ConfiguredSizePositive(opts: seq<PoolOption>)
    requires NoPanic(opts)
    ensures Configure(opts).n > 0
  {
    if opts != [] {
      ConfiguredSizePositive(opts[..|opts| - 1]);
    }
  }

  /** How many of the `count` dials from call `start` on succeed before the
      first one the oracle fails (`count` when none fails). */
  function FirstFailure(failures: map<nat, nat>, start: nat, count: nat): (k: nat)
    ensures k <= count
    decreases count
  {
    if count == 0 || start in failures then 0 else 1 + FirstFailure(failures, start + 1, count - 1)
  }

  /** `FirstFailure` is the index of the first failing dial. */
  lemma {:induction false} FirstFailureIsFirst(failures: map<nat, nat>, start: nat, count: nat)
    ensures var k := FirstFailure(failures, start, count);
      (forall j :: start <= j < start + k ==> j !in failures) &&
      (k < count ==> start + k in failures)
    decreases count
  {
    if count > 0 && start !in failures {
      FirstFailureIsFirst(failures, start + 1, count - 1);
    }
  }

  /** One dial further: a dial that fails is the first failure, one that
      succeeds moves the first failure past it. */
  lemma {:induction false} FirstFailureStep(failures: map<nat, nat>, start: nat, count: nat, i: nat)
    requires i < count && i <= FirstFailure(failures, start, count)
    ensures start + i in failures ==> FirstFailure(failures, start, count) == i
    ensures start + i !in failures ==> i + 1 <= FirstFailure(failures, start, count)
    decreases count
  {
    if i > 0 {
      FirstFailureStep(failures, start + 1, count - 1, i - 1);
    }
  }

  /** The outcome the oracle gives `conn.Write(p)` on write number `k`: a
      listed write reports `(count, code)` (the count capped at `len(p)`), any
      other writes all of `p`. */
  function WriteOutcome(failures: map<nat, (nat, nat)>, k: nat, p: bytes): (r: (int, Option<Error>))
    ensures 0 <= r.0 <= |p|
    ensures r.1.None? <==> k !in failures
    ensures r.0 < |p| ==> r.1.Some?
  {
    if k in failures then
      ((if failures[k].0 <= |p| then failures[k].0 else |p|), Some(IoError(failures[k].1)))
    else
      (|p|, None)
  }

  /** The network: `net.Dial`, `Conn.Write` and `Conn.Close`, with outcomes
      from oracles keyed by call number. */
  class Net {
    var dials: seq<(string, string)>
    var writes: seq<(ConnId, bytes)>
    var closed: seq<ConnId>
    const dialFailures: map<nat, nat>
    const writeFailures: map<nat, (nat, nat)>

    constructor (dialFailures: map<nat, nat>, writeFailures: map<nat, (nat, nat)>)
      ensures dials == [] && writes == [] && closed == []
      ensures this.dialFailures == dialFailures && this.writeFailures == writeFailures
    {
      dials, writes, closed := [], [], [];
      this.dialFailures, this.writeFailures := dialFailures, writeFailures;
    }

    method Dial(network: string, address: string) returns (conn: ConnId, err: Option<Error>)
      modifies this
      ensures dials == old(dials) + [(network, address)] && writes == old(writes) && closed == old(closed)
      ensures conn == |old(dials)| && err == ErrorOf(FaultAt(dialFailures, |old(dials)|))
    {
      conn := |dials|;
      err := ErrorOf(FaultAt(dialFailures, |dials|));
      dials := dials + [(network, address)];
    }

    method Write(conn: ConnId, p: bytes) returns (n: int, err: Option<Error>)
      modifies this
      ensures writes == old(writes) + [(conn, p)] && dials == old(dials) && closed == old(closed)
      ensures (n, err) == WriteOutcome(writeFailures, |old(writes)|, p)
    {
      n, err := WriteOutcome(writeFailures, |writes|, p).0, WriteOutcome(writeFailures, |writes|, p).1;
      writes := writes + [(conn, p)];
    }

    method Close(conn: ConnId)
      modifies this
      ensures closed == old(closed) + [conn] && dials == old(dials) && writes == old(writes)
    {
      closed := closed + [conn];
    }
  }

  /** `k` copies of `x`. */
  function Repeat<T>(x: T, k: nat): (s: seq<T>)
    ensures |s| == k && forall j :: 0 <= j < k ==> s[j] == x
  {
    seq(k, _ => x)
  }

  predicate Distinct(s: seq<ConnId>) {
    forall i, j :: 0 <= i < j < |s| ==> s[i] != s[j]
  }

  /** The connections dialled by calls `start` .. `start + k - 1`. */
  function Dialled(start: nat, k: nat): (s: seq<ConnId>)
    ensures |s| == k && Distinct(s)
    ensures forall j :: 0 <= j < k ==> s[j] == start + j
  {
    seq(k, j => start + j)
  }

  /** The front connection moved to the back. */
  function Rotate(q: seq<ConnId>): (r: seq<ConnId>)
    requires q != []
  {
    q[1..] + [q[0]]
  }

  /** A rotation keeps the same connections. */
  lemma RotateKeepsConnections(q: seq<ConnId>)
    requires q != []
    ensures multiset(Rotate(q)) == multiset(q) && |Rotate(q)| == |q|
    ensures Distinct(q) ==> Distinct(Rotate(q))
  {
    assert q == [q[0]] + q[1..];
    if Distinct(q) {
      var r := Rotate(q);
      forall i, j | 0 <= i < j < |r|
        ensures r[i] != r[j]
      {
        if j == |r| - 1 {
          assert r[i] == q[i + 1] && r[j] == q[0];
        } else {
          assert r[i] == q[i + 1] && r[j] == q[j + 1];
        }
      }
    }
  }

  /** `k` rotations in a row. */
  function Rotations(q: seq<ConnId>, k: nat): seq<ConnId>
    requires q != []
    decreases k
  {
    if k == 0 then q else Rotations(Rotate(q), k - 1)
  }

  /** After `k` writes the queue has turned by `k`; after `len(q)` writes every
      connection is back where it started. */
  lemma {:induction false} RotationsTurn(q: seq<ConnId>, k: nat)
    requires q != [] && k <= |q|
    ensures Rotations(q, k) == q[k..] + q[..k]
    decreases k
  {
    if k > 0 {
      var r := Rotate(q);
      RotationsTurn(r, k - 1);
      assert r[k - 1..] == q[k..] + [q[0]];
      assert r[..k - 1] == q[1..k];
      assert q[..k] == [q[0]] + q[1..k];
    }
  }

  lemma FullTurn(q: seq<ConnId>)
    requires q != []
    ensures Rotations(q, |q|) == q
  {
    RotationsTurn(q, |q|);
  }

  lemma DistinctSuffix(s: seq<ConnId>, k: nat)
    requires Distinct(s) && k <= |s|
    ensures Distinct(s[k..])
  {
    var t := s[k..];
    forall i, j | 0 <= i < j < |t|
      ensures t[i] != t[j]
    {
      assert t[i] == s[k + i] && t[j] == s[k + j];
    }
  }

  /** In a queue of distinct connections each one occurs once. */
  lemma {:induction false} DistinctOnce(s: seq<ConnId>, c: ConnId)
    requires Distinct(s) && c in s
    ensures multiset(s)[c] == 1
  {
    if s[0] == c {
      assert c !in s[1..];
    } else {
      DistinctOnce(s[1..], c);
    }
    assert s == [s[0]] + s[1..];
  }

  class TcpPool {
    var n: int
    var network: string
    var address: string
    var pool: seq<ConnId>
    var capacity: nat

    /** The queue never holds more than its capacity, which is the configured
        size, and never holds a connection twice. */
    ghost predicate Valid()
      reads this
    {
      n > 0 && capacity == n && |pool| <= capacity && Distinct(pool)
    }

    /** `NewTcpPool(opts...)`: defaults, then each option in order, then an
        empty queue whose capacity is the final size. */
    constructor NewTcpPool(opts: seq<PoolOption>)
      requires NoPanic(opts)
      ensures Config(n, network, address) == Configure(opts)
      ensures pool == [] && capacity == n && Valid()
    {
      n, network, address := 5, "tcp", ":8080";
      pool, capacity := [], 0;
      new;
      for i := 0 to |opts|
        invariant Config(n, network, address) == Configure(opts[..i])
        invariant pool == []
      {
        assert opts[..i + 1][..i] == opts[..i];
        Apply(opts[i]);
      }
      assert opts[..|opts|] == opts;
      ConfiguredSizePositive(opts);
      capacity := n;
    }

    /** Running one option closure on the pool's fields. */
    method Apply(opt: PoolOption)
      requires opt.WithPoolSize? ==> opt.size > 0
      modifies this
      ensures Config(n, network, address) == ApplyOption(old(Config(n, network, address)), opt)
      ensures pool == old(pool) && capacity == old(capacity)
    {
      match opt
      case WithPoolSize(size) => n := size;
      case WithAddress(addr) => address := addr;
    }

    /** `Init`: up to `n` dials to the configured address. The connections
        opened before the first failed dial stay queued, and no dial follows
        the failure. */
    method Init(net: Net) returns (err: Option<Error>)
      requires Valid() && pool == []
      modifies this, net
      ensures Valid() && n == old(n) && network == old(network) && address == old(address)
      ensures var d0 := |old(net.dials)|;
        var k := FirstFailure(net.dialFailures, d0, n);
        pool == Dialled(d0, k) &&
        net.dials == old(net.dials) + Repeat((network, address), if k < n then k + 1 else n) &&
        err == (if k < n then ErrorOf(FaultAt(net.dialFailures, d0 + k)) else None)
      ensures err.None? <==> |pool| == n
      ensures net.writes == old(net.writes) && net.closed == old(net.closed)
    {
      ghost var d0 := |net.dials|;
      var i := 0;
      while i < n
        invariant 0 <= i <= n && i <= FirstFailure(net.dialFailures, d0, n)
        invariant pool == Dialled(d0, i) && capacity == n
        invariant n == old(n) && network == old(network) && address == old(address)
        invariant net.dials == old(net.dials) + Repeat((network, address), i)
        invariant net.writes == old(net.writes) && net.closed == old(net.closed)
      {
        var conn, e := net.Dial(network, address);
        FirstFailureStep(net.dialFailures, d0, n, i);
        assert Repeat((network, address), i) + [(network, address)] == Repeat((network, address), i + 1);
        if e.Some? {
          return e;
        }
        pool := pool + [conn];
        assert pool == Dialled(d0, i + 1);
        i := i + 1;
      }
      return None;
    }

    /** `Write(p)`: the front connection writes `p` and goes back in at the
        end whatever the outcome, which is returned as `conn.Write` gave it. */
    method Write(p: bytes, net: Net) returns (written: int, err: Option<Error>)
      requires Valid() && pool != []
      modifies this, net
      ensures Valid() && pool == Rotate(old(pool))
      ensures n == old(n) && network == old(network) && address == old(address)
      ensures net.writes == old(net.writes) + [(old(pool)[0], p)]
      ensures (written, err) == WriteOutcome(net.writeFailures, |old(net.writes)|, p)
      ensures net.dials == old(net.dials) && net.closed == old(net.closed)
    {
      var conn := pool[0];
      pool := pool[1..];
      written, err := net.Write(conn, p);
      pool := pool + [conn];
      RotateKeepsConnections(old(pool));
    }

    /** `Close`: takes every idle connection out, front first, and closes it. */
    method Close(net: Net)
      requires Valid()
      modifies this, net
      ensures Valid() && pool == [] && n == old(n)
      ensures network == old(network) && address == old(address)
      ensures net.closed == old(net.closed) + old(pool)
      ensures forall c :: c in old(pool) ==> multiset(net.closed[|old(net.closed)|..])[c] == 1
      ensures net.dials == old(net.dials) && net.writes == old(net.writes)
    {
      ghost var q := pool;
      ghost var c0 := net.closed;
      ghost var taken: nat := 0;
      while |pool| > 0
        invariant Valid() && n == old(n) && Distinct(q)
        invariant network == old(network) && address == old(address)
        invariant taken <= |q| && pool == q[taken..]
        invariant net.closed == c0 + q[..taken]
        invariant net.dials == old(net.dials) && net.writes == old(net.writes)
        decreases |pool|
      {
        var conn := pool[0];
        assert q[..taken + 1] == q[..taken] + [conn];
        pool := pool[1..];
        net.Close(conn);
        taken := taken + 1;
        assert pool == q[taken..];
        DistinctSuffix(q, taken);
      }
      assert q[..|q|] == q;
      assert net.closed[|c0|..] == q;
      forall c | c in q
        ensures multiset(net.closed[|c0|..])[c] == 1
      {
        DistinctOnce(q, c);
      }
    }
  }

  /** Writing "asd" through a fresh pool whose writes all succeed reports three
      bytes and no error. */
  lemma WriteAsd(k: nat)
    ensures WriteOutcome(map[], k, [0x61, 0x73, 0x64]) == (3, None)
  {
  }
}
