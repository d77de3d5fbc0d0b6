/** The announce tokens of a DHT node and the rotation of the secret behind them
    (src/dht/token_secret_rotator.cpp). */
module TokenRotator {

  const PREV_SECRET_TTL: int := 10 * 60 * 1000    // milliseconds

  type Secret = string
  type Token = string

  /** The digest of the token material and the bytes of an address: 4, 16, or none if it is neither
      IPv4 nor IPv6. */
  datatype Crypto = Crypto(sha1: string -> Token, ipBytes: string -> string)

  /** An empty previous secret means there is none. */
  datatype Rotator = Rotator(interval: int, current: Secret, prev: Secret, lastRotation: int, prevExpires: int)

  function Start(interval: int, secret: Secret, now: int): (s: Rotator) {
    Rotator(interval, secret, "", now, 0)
  }

  function ComputeToken(c: Crypto, secret: Secret, ip: string): (t: Token) {
    c.sha1(secret + c.ipBytes(ip))
  }

  predicate Due(s: Rotator, now: int) {
    now - s.lastRotation >= s.interval
  }

  /** rotate_if_needed; `drawn` is the secret it would draw. */
  function Rotate(s: Rotator, now: int, drawn: Secret): (r: Rotator) {
    if !Due(s, now) then s else Rotator(s.interval, drawn, s.current, now, now + PREV_SECRET_TTL)
  }

  function Issue(c: Crypto, s: Rotator, ip: string): (t: Token) {
    ComputeToken(c, s.current, ip)
  }

  predicate Verify(c: Crypto, s: Rotator, token: Token, ip: string, now: int) {
    || token == ComputeToken(c, s.current, ip)
    || (s.prev != "" && now < s.prevExpires && token == ComputeToken(c, s.prev, ip))
  }

  // ---------------------------------------------------------------------------
  // Runs. Issuing and verifying change nothing, so a run is its calls of rotate_if_needed.
  // ---------------------------------------------------------------------------

  datatype Call = Call(at: int, drawn: Secret)

  function Run(s: Rotator, calls: seq<Call>): (r: Rotator) {
    if calls == [] then s
    else
      var last := calls[|calls| - 1];
      Rotate(Run(s, calls[..|calls| - 1]), last.at, last.drawn)
  }

  /** The times at which the secret changes: of each call that comes a whole interval after the last. */
  function Rotations(s: Rotator, calls: seq<Call>): (ts: seq<int>) {
    if calls == [] then []
    else
      var ts, at := Rotations(s, calls[..|calls| - 1]), calls[|calls| - 1].at;
      var latest := if ts == [] then s.lastRotation else ts[|ts| - 1];
      if at - latest >= s.interval then ts + [at] else ts
  }

  /** The calls fall between `from` and `to`, in order. */
  ghost predicate Clock(from: int, calls: seq<Call>, to: int) {
    && from <= to
    && (forall i, j :: 0 <= i < j < |calls| ==> calls[i].at <= calls[j].at)
    && (forall i :: 0 <= i < |calls| ==> from <= calls[i].at <= to)
  }

  function FreshSecrets(calls: seq<Call>): (r: seq<Secret>) {
    if calls == [] then [] else FreshSecrets(calls[..|calls| - 1]) + [calls[|calls| - 1].drawn]
  }

  /** What a run leaves of the secret it started with. */
  lemma {:induction false} AfterRun(s: Rotator, calls: seq<Call>)
    ensures var r, ts := Run(s, calls), Rotations(s, calls);
            && r.interval == s.interval
            && (|ts| == 0 ==> r == s)
            && (|ts| > 0 ==> r.current in FreshSecrets(calls) && r.lastRotation == ts[|ts| - 1])
            && (|ts| > 0 ==> r.prevExpires == ts[|ts| - 1] + 10 * 60 * 1000)
            && (|ts| == 1 ==> r.prev == s.current)
            && (|ts| >= 2 ==> r.prev in FreshSecrets(calls) && ts[|ts| - 1] >= ts[|ts| - 2] + s.interval)
  {
    if calls != [] {
      var before, last := calls[..|calls| - 1], calls[|calls| - 1];
      AfterRun(s, before);
      var ts := Rotations(s, before);
      if Due(Run(s, before), last.at) {
        assert Rotations(s, calls) == ts + [last.at];
      } else {
        assert Rotations(s, calls) == ts;
      }
    }
  }

  lemma {:induction false} RotationsInTime(s: Rotator, calls: seq<Call>, from: int, to: int)
    requires Clock(from, calls, to)
    ensures forall i :: 0 <= i < |Rotations(s, calls)| ==> from <= Rotations(s, calls)[i] <= to
  {
    if calls != [] {
      RotationsInTime(s, calls[..|calls| - 1], from, to);
    }
  }

  /** A token is good for the lesser of the rotation interval and ten minutes, whatever calls are
      made meanwhile and whatever secrets are drawn. */
  lemma TokenWindow(c: Crypto, s: Rotator, calls: seq<Call>, ip: string, issued: int, now: int)
    requires Clock(issued, calls, now) && s.current != ""
    requires now < issued + s.interval && now < issued + 10 * 60 * 1000
    ensures Verify(c, Run(s, calls), Issue(c, s, ip), ip, now)
  {
    AfterRun(s, calls);
    RotationsInTime(s, calls, issued, now);
    var ts := Rotations(s, calls);
    assert |ts| < 2;
  }

  /** No two token materials of the run have the same digest. */
  ghost predicate CollisionFree(c: Crypto, secrets: seq<Secret>, ips: set<string>) {
    forall s1, s2, ip1, ip2 | s1 in secrets && s2 in secrets && ip1 in ips && ip2 in ips ::
      ComputeToken(c, s1, ip1) == ComputeToken(c, s2, ip2) ==> s1 == s2 && c.ipBytes(ip1) == c.ipBytes(ip2)
  }

  ghost predicate Distinct(secrets: seq<Secret>) {
    && (forall i :: 0 <= i < |secrets| ==> |secrets[i]| == 20)
    && (forall i, j :: 0 <= i < j < |secrets| ==> secrets[i] != secrets[j])
  }

  lemma {:induction false} CurrentIsDrawn(interval: int, secret: Secret, start: int, calls: seq<Call>)
    ensures Run(Start(interval, secret, start), calls).current in [secret] + FreshSecrets(calls)
    ensures Run(Start(interval, secret, start), calls).prev in ["", secret] + FreshSecrets(calls)
  {
    if calls != [] {
      CurrentIsDrawn(interval, secret, start, calls[..|calls| - 1]);
    }
  }

  lemma {:induction false} RunConcat(s: Rotator, a: seq<Call>, b: seq<Call>)
    ensures Run(s, a + b) == Run(Run(s, a), b)
  {
    if b == [] {
      assert a + b == a;
    } else {
      RunConcat(s, a, b[..|b| - 1]);
      assert (a + b)[..|a + b| - 1] == a + b[..|b| - 1];
    }
  }

  /** A secret drawn earlier is not drawn again. */
  lemma EarlierIsDifferent(a: seq<Secret>, b: seq<Secret>, x: Secret, y: Secret)
    requires Distinct(a + b) && x in a && y in b
    ensures x != y
  {
    var i :| 0 <= i < |a| && a[i] == x;
    var j :| 0 <= j < |b| && b[j] == y;
    assert (a + b)[i] == x && (a + b)[|a| + j] == y;
  }

  /** Whether the secret behind a token still counts: no rotation since, or exactly one, no longer
      than ten minutes ago. */
  predicate StillCounts(rotations: seq<int>, now: int) {
    |rotations| == 0 || (|rotations| == 1 && now < rotations[0] + 10 * 60 * 1000)
  }

  /** In every run from the constructor a token is accepted exactly while its secret still counts, and
      only for addresses with the same bytes; so never after a second rotation. */
  lemma TokenIsExact(c: Crypto, interval: int, secret: Secret, start: int,
                     before: seq<Call>, after: seq<Call>, ip: string, ip': string, issued: int, now: int)
    requires Clock(start, before, issued) && Clock(issued, after, now)
    requires Distinct([secret] + FreshSecrets(before) + FreshSecrets(after))
    requires CollisionFree(c, [secret] + FreshSecrets(before) + FreshSecrets(after), {ip, ip'})
    ensures var s := Run(Start(interval, secret, start), before);
            Verify(c, Run(Start(interval, secret, start), before + after), Issue(c, s, ip), ip', now)
            <==> StillCounts(Rotations(s, after), now) && c.ipBytes(ip) == c.ipBytes(ip')
  {
    var earlier := [secret] + FreshSecrets(before);
    var all := earlier + FreshSecrets(after);
    var s := Run(Start(interval, secret, start), before);
    RunConcat(Start(interval, secret, start), before, after);
    CurrentIsDrawn(interval, secret, start, before);
    AfterRun(s, after);
    var r := Run(s, after);
    SecretsAt(earlier, FreshSecrets(after));
    hide Run, Rotations, FreshSecrets, Clock;
    if |Rotations(s, after)| == 0 {
      if s.prev in earlier {
        PrevDiffers(interval, secret, start, before, FreshSecrets(after));
      }
    } else {
      EarlierIsDifferent(earlier, FreshSecrets(after), s.current, r.current);
      if |Rotations(s, after)| >= 2 {
        EarlierIsDifferent(earlier, FreshSecrets(after), s.current, r.prev);
      }
    }
  }

  lemma SecretsAt(a: seq<Secret>, b: seq<Secret>)
    requires Distinct(a + b)
    ensures forall x :: x in a || x in b ==> x in a + b && x != ""
  {
    forall x | x in a || x in b
      ensures x in a + b && x != ""
    {
      assert x in a + b;
      var i :| 0 <= i < |a + b| && (a + b)[i] == x;
    }
  }

  /** The two secrets a rotator holds differ. */
  lemma {:induction false} PrevDiffers(interval: int, secret: Secret, start: int, calls: seq<Call>, more: seq<Secret>)
    requires Distinct([secret] + FreshSecrets(calls) + more)
    ensures var s := Run(Start(interval, secret, start), calls); s.prev != s.current
  {
    if calls == [] {
      assert ([secret] + FreshSecrets(calls) + more)[0] == secret;
    } else {
      var before, last := calls[..|calls| - 1], calls[|calls| - 1];
      var a, b := [secret] + FreshSecrets(before), [last.drawn] + more;
      assert [secret] + FreshSecrets(calls) + more == a + b;
      PrevDiffers(interval, secret, start, before, b);
      CurrentIsDrawn(interval, secret, start, before);
      var s := Run(Start(interval, secret, start), before);
      EarlierIsDifferent(a, b, s.current, last.drawn);
    }
  }

  // ---------------------------------------------------------------------------
  // The rotator as a mutable object
  // ---------------------------------------------------------------------------

  class TokenSecretRotator {
    const crypto: Crypto
    const interval: int
    var current: Secret
    var prev: Secret
    var lastRotation: int
    var prevExpires: int

    ghost function State(): (s: Rotator)
      reads this
    {
      Rotator(interval, current, prev, lastRotation, prevExpires)
    }

    constructor (crypto: Crypto, interval: int, secret: Secret, now: int)
      ensures this.crypto == crypto && State() == Start(interval, secret, now)
    {
      this.crypto, this.interval := crypto, interval;
      current, prev, lastRotation, prevExpires := secret, "", now, 0;
    }

    method RotateIfNeeded(now: int, drawn: Secret)
      modifies this
      ensures State() == Rotate(old(State()), now, drawn)
    {
      if now - lastRotation < interval {
        return;
      }
      prev := current;
      prevExpires := now + PREV_SECRET_TTL;
      current := drawn;
      lastRotation := now;
    }

    method IssueToken(ip: string) returns (token: Token)
      ensures token == Issue(crypto, State(), ip)
    {
      token := ComputeToken(crypto, current, ip);
    }

    method VerifyToken(token: Token, ip: string, now: int) returns (ok: bool)
      ensures ok == Verify(crypto, State(), token, ip, now)
    {
      if token == ComputeToken(crypto, current, ip) {
        return true;
      }
      if prev != "" && now < prevExpires && token == ComputeToken(crypto, prev, ip) {
        return true;
      }
      return false;
    }
  }
}
