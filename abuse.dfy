/**
 * Anti-abuse primitives: the signed viewability token, the click dedupe key, the client
 * fingerprint, and the time-windowed duplicate-click table. HMAC-SHA-256 and SHA-256
 * are parameters: the model assumes nothing about them beyond their 32-byte output.
 */
module Abuse {
  import opened Wrappers
  import opened JsText
  import opened JsNumber
  import opened Encoding
  import AdsConfig

  /** HMAC-SHA-256 keyed by its first argument, over its second. */
  type Hmac = (string, string) -> Digest

  type Sha256 = string -> Digest

  /** `process.env.JWT_SECRET || 'secret'`. */
  function SigningKey(env: AdsConfig.Env): string {
    AdsConfig.EnvOr(env, "JWT_SECRET", "secret")
  }

  /** JavaScript `x >= bound` where a NaN bound (None) makes every comparison false. */
  predicate AtLeast(x: real, bound: Option<int>) {
    bound.Some? && x >= bound.value as real
  }

  /** JavaScript `x < bound` where a NaN bound (None) makes every comparison false. */
  predicate Below(x: int, bound: Option<int>) {
    bound.Some? && x < bound.value
  }

  /** The hex HMAC over `msg`. */
  function Sign(key: string, hmac: Hmac, msg: string): (mac: string)
    ensures |mac| == 64 && '|' !in mac
  {
    var mac := Hex(hmac(key, msg));
    assert forall i :: 0 <= i < |mac| ==> mac[i] != '|' by {
      forall i | 0 <= i < |mac| ensures mac[i] != '|' { assert IsLowerHex(mac[i]); }
    }
    mac
  }

  /**
   * `issueViewabilityToken`: `impressionId|ts|hmac` with `ts` the decimal issue time and
   * the HMAC taken over `impressionId|ts`. When the id holds no '|' the three fields
   * split back out.
   */
  function IssueViewabilityToken(key: string, hmac: Hmac, impressionId: string, issuedAtMs: nat): (t: string)
    ensures |t| == |impressionId| + |Decimal(issuedAtMs)| + 66
    ensures '|' !in impressionId ==>
      Split(t, '|') == [impressionId, Decimal(issuedAtMs),
                        Sign(key, hmac, impressionId + "|" + Decimal(issuedAtMs))]
  {
    var ts := Decimal(issuedAtMs);
    var mac := Sign(key, hmac, impressionId + "|" + ts);
    var t := impressionId + "|" + ts + "|" + mac;
    assert '|' !in impressionId ==> Split(t, '|') == [impressionId, ts, mac] by {
      if '|' !in impressionId {
        assert '|' !in ts by {
          forall i | 0 <= i < |ts| ensures ts[i] != '|' { assert IsDigit(ts[i]); }
        }
        SplitThree(impressionId, ts, mac, '|');
      }
    }
    t
  }

  /** The third field is the HMAC recomputed over the first two. */
  predicate MacMatches(key: string, hmac: Hmac, fields: seq<string>) {
    |fields| >= 3 && fields[2] == Sign(key, hmac, fields[0] + "|" + fields[1])
  }

  /**
   * `validateViewabilityToken` at clock reading `now`: the first three '|'-fields are
   * taken (further fields are ignored); the token is rejected unless the third equals the
   * HMAC recomputed over the first two, and then accepted iff `Number(ts)` is a number and
   * the elapsed time `now - Number(ts)` is at least `minDisplayMs`. Malformed input is
   * rejected, never thrown.
   */
  function ValidateViewabilityToken(key: string, hmac: Hmac, token: string, now: int, minDisplayMs: Option<int>): (ok: bool)
    ensures !MacMatches(key, hmac, Split(token, '|')) ==> !ok
    ensures MacMatches(key, hmac, Split(token, '|')) ==>
      var ts := ParseNumber(Split(token, '|')[1]);
      (ts.None? ==> !ok) && (ts.Some? ==> (ok <==> AtLeast(now as real - ts.value, minDisplayMs)))
  {
    var fields := Split(token, '|');
    if !MacMatches(key, hmac, fields) then false
    else
      var ts := ParseNumber(fields[1]);
      if ts.None? then false
      else AtLeast(now as real - ts.value, minDisplayMs)
  }

  /**
   * Round trip: a token issued at `t` for an id without '|' validates at `now` exactly
   * when `minDisplayMs` is a number and `now - t >= minDisplayMs`.
   */
  lemma ValidateIssued(key: string, hmac: Hmac, impressionId: string, t: nat, now: int, minDisplayMs: Option<int>)
    requires '|' !in impressionId
    ensures ValidateViewabilityToken(key, hmac, IssueViewabilityToken(key, hmac, impressionId, t), now, minDisplayMs)
        <==> minDisplayMs.Some? && now - t >= minDisplayMs.value
  {
    NumberOfDecimal(t);
  }

  /** A token whose MAC field is anything but the right MAC is rejected, whatever the clock says. */
  lemma TamperedMacRejected(key: string, hmac: Hmac, impressionId: string, ts: string, mac: string, now: int, minDisplayMs: Option<int>)
    requires '|' !in impressionId && '|' !in ts && '|' !in mac
    requires mac != Sign(key, hmac, impressionId + "|" + ts)
    ensures !ValidateViewabilityToken(key, hmac, impressionId + "|" + ts + "|" + mac, now, minDisplayMs)
  {
    SplitThree(impressionId, ts, mac, '|');
  }

  /**
   * Validation looks at three fields only: appending further fields to an issued token
   * does not change the verdict.
   */
  lemma TrailingFieldsIgnored(key: string, hmac: Hmac, impressionId: string, t: nat, extra: string, now: int, minDisplayMs: Option<int>)
    requires '|' !in impressionId
    ensures var token := IssueViewabilityToken(key, hmac, impressionId, t);
      ValidateViewabilityToken(key, hmac, token + "|" + extra, now, minDisplayMs)
        == ValidateViewabilityToken(key, hmac, token, now, minDisplayMs)
  {
    var token := IssueViewabilityToken(key, hmac, impressionId, t);
    SplitAppend(token, extra, '|');
    assert (Split(token, '|') + Split(extra, '|'))[..3] == Split(token, '|');
    SameFirstFields(key, hmac, token, token + "|" + extra, now, minDisplayMs);
  }

  /** Splitting `a`, a separator and `b` splits `a` and `b` separately. */
  lemma SplitAppend(a: string, b: string, sep: char)
    ensures Split(a + [sep] + b, sep) == Split(a, sep) + Split(b, sep)
  {
    var xs, ys := Split(a, sep), Split(b, sep);
    JoinAppend(xs, ys, sep);
    SplitJoin(xs + ys, sep);
  }

  /** Two tokens that agree on their first three fields get the same verdict. */
  lemma SameFirstFields(key: string, hmac: Hmac, a: string, b: string, now: int, minDisplayMs: Option<int>)
    requires |Split(a, '|')| >= 3 && |Split(b, '|')| >= 3
    requires Split(a, '|')[..3] == Split(b, '|')[..3]
    ensures ValidateViewabilityToken(key, hmac, a, now, minDisplayMs) == ValidateViewabilityToken(key, hmac, b, now, minDisplayMs)
  {
    var fa, fb := Split(a, '|'), Split(b, '|');
    assert fa[0] == fa[..3][0] == fb[0];
    assert fa[1] == fa[..3][1] == fb[1];
    assert fa[2] == fa[..3][2] == fb[2];
  }

  /** Joining two field lists with one separator between them. */
  lemma {:induction false} JoinAppend(xs: seq<string>, ys: seq<string>, sep: char)
    requires |xs| >= 1 && |ys| >= 1
    ensures Join(xs + ys, sep) == Join(xs, sep) + [sep] + Join(ys, sep)
  {
    if |xs| == 1 {
      assert (xs + ys)[1..] == ys;
    } else {
      assert (xs + ys)[1..] == xs[1..] + ys;
      JoinAppend(xs[1..], ys, sep);
    }
  }

  /** `dedupeClickKey`: `impressionId|userId|sessionId` with "" for a missing or empty part. */
  function DedupeClickKey(impressionId: string, userId: Option<string>, sessionId: Option<string>): (k: string)
    ensures '|' !in impressionId && '|' !in OrEmpty(userId) && '|' !in OrEmpty(sessionId) ==>
      Split(k, '|') == [impressionId, OrEmpty(userId), OrEmpty(sessionId)]
  {
    var k := impressionId + "|" + OrEmpty(userId) + "|" + OrEmpty(sessionId);
    assert '|' !in impressionId && '|' !in OrEmpty(userId) && '|' !in OrEmpty(sessionId) ==>
      Split(k, '|') == [impressionId, OrEmpty(userId), OrEmpty(sessionId)] by {
      if '|' !in impressionId && '|' !in OrEmpty(userId) && '|' !in OrEmpty(sessionId) {
        SplitThree(impressionId, OrEmpty(userId), OrEmpty(sessionId), '|');
      }
    }
    k
  }

  /** Clicks that differ in impression, user or session (none holding '|') get different keys. */
  lemma DedupeKeyInjective(i1: string, u1: Option<string>, s1: Option<string>,
                           i2: string, u2: Option<string>, s2: Option<string>)
    requires '|' !in i1 && '|' !in OrEmpty(u1) && '|' !in OrEmpty(s1)
    requires '|' !in i2 && '|' !in OrEmpty(u2) && '|' !in OrEmpty(s2)
    requires DedupeClickKey(i1, u1, s1) == DedupeClickKey(i2, u2, s2)
    ensures i1 == i2 && OrEmpty(u1) == OrEmpty(u2) && OrEmpty(s1) == OrEmpty(s2)
  {
    var p1 := Split(DedupeClickKey(i1, u1, s1), '|');
    assert p1 == [i1, OrEmpty(u1), OrEmpty(s1)];
    assert p1 == [i2, OrEmpty(u2), OrEmpty(s2)];
  }

  /** The text `makeFingerprint` hashes: `ip|ua|sessionId` with "" for a missing or empty part. */
  function FingerprintBase(ip: Option<string>, ua: Option<string>, sessionId: Option<string>): (b: string)
    ensures '|' !in OrEmpty(ip) && '|' !in OrEmpty(ua) && '|' !in OrEmpty(sessionId) ==>
      Split(b, '|') == [OrEmpty(ip), OrEmpty(ua), OrEmpty(sessionId)]
  {
    var b := OrEmpty(ip) + "|" + OrEmpty(ua) + "|" + OrEmpty(sessionId);
    assert '|' !in OrEmpty(ip) && '|' !in OrEmpty(ua) && '|' !in OrEmpty(sessionId) ==>
      Split(b, '|') == [OrEmpty(ip), OrEmpty(ua), OrEmpty(sessionId)] by {
      if '|' !in OrEmpty(ip) && '|' !in OrEmpty(ua) && '|' !in OrEmpty(sessionId) {
        SplitThree(OrEmpty(ip), OrEmpty(ua), OrEmpty(sessionId), '|');
      }
    }
    b
  }

  /**
   * `makeFingerprint`: 64 lowercase hex characters, and the hex text of exactly one digest,
   * the SHA-256 of `FingerprintBase`.
   */
  function MakeFingerprint(sha256: Sha256, ip: Option<string>, ua: Option<string>, sessionId: Option<string>): (f: string)
    ensures |f| == 64 && forall i :: 0 <= i < |f| ==> IsLowerHex(f[i])
    ensures forall d: Digest :: Hex(d) == f <==> d == sha256(FingerprintBase(ip, ua, sessionId))
  {
    var f := Hex(sha256(FingerprintBase(ip, ua, sessionId)));
    assert forall d: Digest :: Hex(d) == f ==> d == sha256(FingerprintBase(ip, ua, sessionId)) by {
      forall d: Digest | Hex(d) == f ensures d == sha256(FingerprintBase(ip, ua, sessionId)) {
        HexInjective(d, sha256(FingerprintBase(ip, ua, sessionId)));
      }
    }
    f
  }

  /**
   * Equal fingerprints come from equal digests, and for parts without '|' distinct
   * `(ip, ua, sessionId)` triples hash distinct texts: only a SHA-256 collision can
   * make two such visitors share a fingerprint.
   */
  lemma FingerprintsCollideOnlyByDigest(sha256: Sha256,
                                        ip1: Option<string>, ua1: Option<string>, s1: Option<string>,
                                        ip2: Option<string>, ua2: Option<string>, s2: Option<string>)
    requires '|' !in OrEmpty(ip1) && '|' !in OrEmpty(ua1) && '|' !in OrEmpty(s1)
    requires '|' !in OrEmpty(ip2) && '|' !in OrEmpty(ua2) && '|' !in OrEmpty(s2)
    requires MakeFingerprint(sha256, ip1, ua1, s1) == MakeFingerprint(sha256, ip2, ua2, s2)
    ensures sha256(FingerprintBase(ip1, ua1, s1)) == sha256(FingerprintBase(ip2, ua2, s2))
    ensures FingerprintBase(ip1, ua1, s1) == FingerprintBase(ip2, ua2, s2) <==>
      OrEmpty(ip1) == OrEmpty(ip2) && OrEmpty(ua1) == OrEmpty(ua2) && OrEmpty(s1) == OrEmpty(s2)
  {
    HexInjective(sha256(FingerprintBase(ip1, ua1, s1)), sha256(FingerprintBase(ip2, ua2, s2)));
    if FingerprintBase(ip1, ua1, s1) == FingerprintBase(ip2, ua2, s2) {
      var p := Split(FingerprintBase(ip1, ua1, s1), '|');
      assert p == [OrEmpty(ip1), OrEmpty(ua1), OrEmpty(s1)];
      assert p == [OrEmpty(ip2), OrEmpty(ua2), OrEmpty(s2)];
    }
  }

  /** The time a key was last recorded, 0 when it never was (`dedupeStore.get(key) || 0`). */
  function LastSeen(table: map<string, int>, key: string): int {
    if key in table then table[key] else 0
  }

  /** The duplicate verdict: less than the window has passed since the key was last recorded. */
  predicate IsDuplicate(table: map<string, int>, key: string, now: int, windowMs: Option<int>) {
    Below(now - LastSeen(table, key), windowMs)
  }

  /** The table after a click: `now` is recorded for the key only when it was not a duplicate. */
  function AfterClick(table: map<string, int>, key: string, now: int, windowMs: Option<int>): (t: map<string, int>)
    ensures t.Keys == table.Keys + (if IsDuplicate(table, key, now, windowMs) then {} else {key})
    ensures forall k :: k in table && k != key ==> t[k] == table[k]
    ensures !IsDuplicate(table, key, now, windowMs) ==> t[key] == now
    ensures IsDuplicate(table, key, now, windowMs) ==> t == table
  {
    if IsDuplicate(table, key, now, windowMs) then table else table[key := now]
  }

  /** The process-wide table behind `isDuplicateClick`. */
  class DedupeStore {
    var lastSeen: map<string, int>

    constructor()
      ensures lastSeen == map[]
    {
      lastSeen := map[];
    }

    /** `isDuplicateClick(key)` at clock reading `now`. */
    method IsDuplicateClick(key: string, now: int, windowMs: Option<int>) returns (dup: bool)
      modifies this
      ensures dup == IsDuplicate(old(lastSeen), key, now, windowMs)
      ensures lastSeen == AfterClick(old(lastSeen), key, now, windowMs)
    {
      var last := if key in lastSeen then lastSeen[key] else 0;
      dup := windowMs.Some? && now - last < windowMs.value;
      if !dup {
        lastSeen := lastSeen[key := now];
      }
    }
  }

  /** The verdicts of a run of clicks on one key at the given times, and the table afterwards. */
  function ClickRun(table: map<string, int>, key: string, times: seq<int>, windowMs: Option<int>): (seq<bool>, map<string, int>)
    decreases |times|
  {
    if times == [] then ([], table)
    else
      var rest := ClickRun(AfterClick(table, key, times[0], windowMs), key, times[1..], windowMs);
      ([IsDuplicate(table, key, times[0], windowMs)] + rest.0, rest.1)
  }

  /**
   * First wins: once a click is recorded at `t0`, every click on that key before
   * `t0 + windowMs` is a duplicate and the recorded time stays `t0`; a burst of
   * duplicates never slides the window forward.
   */
  lemma {:induction false} BurstStaysDuplicate(table: map<string, int>, key: string, times: seq<int>, w: int)
    requires key in table
    requires forall i :: 0 <= i < |times| ==> table[key] <= times[i] < table[key] + w
    ensures var (verdicts, after) := ClickRun(table, key, times, Some(w));
      after == table && |verdicts| == |times| && forall i :: 0 <= i < |verdicts| ==> verdicts[i]
    decreases |times|
  {
    if times != [] {
      assert IsDuplicate(table, key, times[0], Some(w));
      BurstStaysDuplicate(table, key, times[1..], w);
    }
  }

  /**
   * The sequence of a first click, a second click inside the window and a third after it:
   * not a duplicate, a duplicate, and not a duplicate again.
   */
  lemma FirstSecondAfterWindow(table: map<string, int>, key: string, t0: int, t1: int, t2: int, w: int)
    requires key !in table && t0 >= w
    requires t0 <= t1 < t0 + w && t2 >= t0 + w
    ensures ClickRun(table, key, [t0, t1, t2], Some(w)).0 == [false, true, false]
    ensures ClickRun(table, key, [t0, t1, t2], Some(w)).1 == table[key := t2]
  {
    var ow := Some(w);
    var a := AfterClick(table, key, t0, ow);
    assert !IsDuplicate(table, key, t0, ow);
    assert a == table[key := t0];
    assert IsDuplicate(a, key, t1, ow);
    assert !IsDuplicate(a, key, t2, ow);
    var b := AfterClick(a, key, t2, ow);
    assert b == table[key := t2];
    ClickRunStep(a, key, t2, [], ow);
    assert [t2] + [] == [t2];
    ClickRunStep(a, key, t1, [t2], ow);
    assert [t1] + [t2] == [t1, t2];
    ClickRunStep(table, key, t0, [t1, t2], ow);
    assert [t0] + [t1, t2] == [t0, t1, t2];
  }

  /** One step of a run: the first click's verdict, then the rest run on the updated table. */
  lemma ClickRunStep(table: map<string, int>, key: string, t: int, rest: seq<int>, windowMs: Option<int>)
    ensures var next := ClickRun(AfterClick(table, key, t, windowMs), key, rest, windowMs);
      ClickRun(table, key, [t] + rest, windowMs) == ([IsDuplicate(table, key, t, windowMs)] + next.0, next.1)
  {
    assert ([t] + rest)[1..] == rest;
  }
}
