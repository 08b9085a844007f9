/** The Azure token cache. GetToken checks a token under one lock and reads it under another;
    other callers and the cleanup loop run in between. */
module TokenCache {
  import opened GoStrings

  /** Times are nanoseconds. */
  datatype Token = Token(text: string, expiresAt: int, issuedAt: int)

  function TokenKey(namespace: string, serviceAccount: string): string {
    namespace + "/" + serviceAccount
  }

  /** 20% of the lifetime, cut to whole nanoseconds towards zero. */
  function Margin(t: Token): int {
    var share := (t.expiresAt - t.issuedAt) as real * 0.2;
    if share >= 0.0 then share.Floor else -((-share).Floor)
  }

  predicate IsValidAt(t: Token, now: int) {
    now <= t.expiresAt && t.expiresAt - now > Margin(t)
  }

  type Tokens = map<string, Token>

  function AfterCleanup(tokens: Tokens, now: int): Tokens {
    map k | k in tokens && now <= tokens[k].expiresAt :: tokens[k]
  }

  class AzureTokenCache {
    var tokens: Tokens

    constructor ()
      ensures tokens == map[]
    {
      tokens := map[];
    }

    /** IsTokenValid; now is read after the lookup. */
    method IsTokenValid(namespace: string, serviceAccount: string, now: int) returns (valid: bool)
      ensures valid <==>
              TokenKey(namespace, serviceAccount) in tokens &&
                  IsValidAt(tokens[TokenKey(namespace, serviceAccount)], now)
    {
      var key := TokenKey(namespace, serviceAccount);
      if key !in tokens {
        return false;
      }
      var cached := tokens[key];
      if now > cached.expiresAt {
        return false;
      }
      var remainingLifetime := cached.expiresAt - now;
      return remainingLifetime > Margin(cached);
    }

    /** The second lookup of GetToken: both fields under one lock. None is the nil pointer. */
    method ReadToken(key: string) returns (r: Option<(string, int)>)
      ensures r == if key in tokens then Some((tokens[key].text, tokens[key].expiresAt)) else None
    {
      if key !in tokens {
        return None;
      }
      return Some((tokens[key].text, tokens[key].expiresAt));
    }

    /** What GetToken does after a successful exchange. */
    method Store(key: string, token: Token)
      modifies this
      ensures tokens == old(tokens)[key := token]
    {
      tokens := tokens[key := token];
    }

    /** GetToken by a single caller at one moment; exchanged is the answer of Azure AD. */
    method GetToken(namespace: string, serviceAccount: string, now: int, exchanged: Option<Token>)
        returns (r: Option<(string, int)>)
      modifies this
      ensures var key := TokenKey(namespace, serviceAccount);
              if key in old(tokens) && IsValidAt(old(tokens)[key], now)
              then r == Some((old(tokens)[key].text, old(tokens)[key].expiresAt)) && tokens == old(tokens)
              else if exchanged.None? then r == None && tokens == old(tokens)
              else
                r == Some((exchanged.value.text, exchanged.value.expiresAt)) &&
                tokens == old(tokens)[key := exchanged.value]
    {
      var key := TokenKey(namespace, serviceAccount);
      var valid := IsTokenValid(namespace, serviceAccount, now);
      if valid {
        r := ReadToken(key);
        return;
      }
      if exchanged.None? {
        return None;
      }
      Store(key, exchanged.value);
      return Some((exchanged.value.text, exchanged.value.expiresAt));
    }

    method CleanupExpired(now: int)
      modifies this
      ensures tokens == AfterCleanup(old(tokens), now)
    {
      var pending := tokens.Keys;
      ghost var start := tokens;
      while pending != {}
        invariant pending <= start.Keys
        invariant tokens == map k | k in start && (k in pending || now <= start[k].expiresAt) :: start[k]
      {
        var key :| key in pending;
        pending := pending - {key};
        if now > tokens[key].expiresAt {
          tokens := tokens - {key};
        }
      }
    }
  }

  // ----- Interleavings between the check and the second read

  datatype Event =
    | Stored(key: string, token: Token, now: int)
    | CleanedUp(now: int)

  function Next(tokens: Tokens, e: Event): Tokens {
    match e
    case Stored(key, token, _) => tokens[key := token]
    case CleanedUp(now) => AfterCleanup(tokens, now)
  }

  function After(tokens: Tokens, es: seq<Event>): Tokens
    decreases |es|
  {
    if es == [] then tokens else After(Next(tokens, es[0]), es[1..])
  }

  /** Events happen between these two moments, in order. */
  predicate Between(es: seq<Event>, start: int, end: int) {
    if es == [] then start <= end
    else start <= es[0].now <= end && Between(es[1..], es[0].now, end)
  }

  /** Stored tokens are good for at least the gap. */
  predicate LastsLonger(es: seq<Event>, gap: int) {
    forall e <- es :: e.Stored? ==> e.token.expiresAt >= e.now + gap
  }

  lemma {:induction false} StaysFresh(tokens: Tokens, es: seq<Event>, key: string, start: int, end: int,
      bound: int, gap: int)
    requires Between(es, start, end) && LastsLonger(es, gap)
    requires key in tokens && tokens[key].expiresAt >= bound
    requires end <= bound <= start + gap
    ensures key in After(tokens, es) && After(tokens, es)[key].expiresAt >= bound
    decreases |es|
  {
    if es != [] {
      assert es[0] in es;
      assert forall e <- es[1..] :: e in es;
      StaysFresh(Next(tokens, es[0]), es[1..], key, es[0].now, end, bound, gap);
    }
  }

  /** Whatever other callers and the cleanup loop do between the first lookup and the read,
      the read finds an entry, and one that is not expired. */
  ghost predicate AlwaysFresh(tokens: Tokens, key: string, lookedUp: int, read: int, gap: int) {
    forall es :: Between(es, lookedUp, read) && LastsLonger(es, gap) ==>
      key in After(tokens, es) && After(tokens, es)[key].expiresAt >= read
  }

  ghost predicate AlwaysFound(tokens: Tokens, key: string, lookedUp: int, read: int, gap: int) {
    forall es :: Between(es, lookedUp, read) && LastsLonger(es, gap) ==> key in After(tokens, es)
  }

  lemma CleanupAt(tokens: Tokens, key: string, lookedUp: int, read: int, gap: int)
    requires lookedUp <= read
    ensures Between([CleanedUp(read)], lookedUp, read) && LastsLonger([CleanedUp(read)], gap)
    ensures key in After(tokens, [CleanedUp(read)]) <==> key in tokens && read <= tokens[key].expiresAt
  {
    assert [CleanedUp(read)][1..] == [];
    assert After(tokens, [CleanedUp(read)]) == AfterCleanup(tokens, read);
  }

  /** Over all interleavings: the second lookup can never miss exactly when the entry that
      the first one found outlives the read, and then what is read is unexpired as well. */
  lemma SecondLookupIsSafeIff(tokens: Tokens, key: string, lookedUp: int, read: int, gap: int)
    requires key in tokens && lookedUp <= read <= lookedUp + gap
    ensures AlwaysFound(tokens, key, lookedUp, read, gap) <==> read <= tokens[key].expiresAt
    ensures AlwaysFresh(tokens, key, lookedUp, read, gap) <==> read <= tokens[key].expiresAt
  {
    CleanupAt(tokens, key, lookedUp, read, gap);
    if read <= tokens[key].expiresAt {
      forall es | Between(es, lookedUp, read) && LastsLonger(es, gap)
        ensures key in After(tokens, es) && After(tokens, es)[key].expiresAt >= read
      {
        StaysFresh(tokens, es, key, lookedUp, read, read, gap);
      }
    }
  }

  /** A caller of GetToken: it found the entry at lookedUp, judged it valid at judged, and
      reads it at read, all within the gap. */
  predicate IsCaller(t: Token, gap: int, lookedUp: int, judged: int, read: int) {
    IsValidAt(t, judged) && lookedUp <= judged <= read <= lookedUp + gap
  }

  /** A read comes too late exactly when the margin is short of the gap by more than one tick. */
  lemma LatestCaller(t: Token, gap: int)
    requires gap >= 1
    ensures (forall lookedUp, judged, read :: IsCaller(t, gap, lookedUp, judged, read) ==> read <= t.expiresAt) <==>
            Margin(t) >= gap - 1
  {
    if Margin(t) < gap - 1 {
      var judged := if Margin(t) >= 0 then t.expiresAt - Margin(t) - 1 else t.expiresAt;
      assert IsCaller(t, gap, judged, judged, judged + gap);
    }
  }

  /** The check-then-read of GetToken is safe for every caller and every interleaving exactly
      when the renewal margin is at least the gap, less one tick. */
  lemma MarginMakesItSafe(tokens: Tokens, key: string, gap: int)
    requires key in tokens && gap >= 1
    ensures (forall lookedUp, judged, read :: IsCaller(tokens[key], gap, lookedUp, judged, read) ==>
               AlwaysFresh(tokens, key, lookedUp, read, gap)) <==>
            Margin(tokens[key]) >= gap - 1
  {
    LatestCaller(tokens[key], gap);
    forall lookedUp, judged, read | IsCaller(tokens[key], gap, lookedUp, judged, read)
      ensures AlwaysFresh(tokens, key, lookedUp, read, gap) <==> read <= tokens[key].expiresAt
    {
      SecondLookupIsSafeIff(tokens, key, lookedUp, read, gap);
    }
    if forall lookedUp, judged, read :: IsCaller(tokens[key], gap, lookedUp, judged, read) ==>
         AlwaysFresh(tokens, key, lookedUp, read, gap) {
      forall lookedUp, judged, read | IsCaller(tokens[key], gap, lookedUp, judged, read)
        ensures read <= tokens[key].expiresAt
      {
        assert AlwaysFresh(tokens, key, lookedUp, read, gap);
      }
    }
  }

  /** The margin is at least the gap exactly when the lifetime is at least five times it. */
  lemma MarginCoversGap(t: Token, gap: int)
    requires gap >= 1
    ensures Margin(t) >= gap <==> t.expiresAt - t.issuedAt >= 5 * gap
  {}

  /** A token that lives for four ticks has no margin: judged valid at its last but one, it
      is gone two ticks later. */
  lemma ShortLivedTokenVanishes()
    ensures var t := Token("a", 4, 0);
            IsCaller(t, 2, 3, 3, 5) && !AlwaysFound(map["k" := t], "k", 3, 5, 2)
  {
    var t := Token("a", 4, 0);
    assert Margin(t) == 0;
    SecondLookupIsSafeIff(map["k" := t], "k", 3, 5, 2);
  }

  // ----- The rule in terms of lifetimes

  /** A token is used while more than a fifth of its lifetime is left, to the nanosecond, at
      every moment and not only near the edge. */
  lemma ValidWhileFifthIsLeft(t: Token, now: int)
    requires t.issuedAt <= t.expiresAt
    ensures IsValidAt(t, now) <==> 5 * (t.expiresAt - now) > t.expiresAt - t.issuedAt
  {}

  /** A token that was due for renewal stays so. */
  lemma RenewalIsFinal(t: Token, now: int, later: int)
    requires t.issuedAt <= t.expiresAt && now <= later && !IsValidAt(t, now)
    ensures !IsValidAt(t, later)
  {
    ValidWhileFifthIsLeft(t, now);
    ValidWhileFifthIsLeft(t, later);
  }

  /** Service accounts of different namespaces, and of one namespace, never share a token. */
  lemma TokenKeyInjective(ns1: string, sa1: string, ns2: string, sa2: string)
    requires '/' !in ns1 && '/' !in ns2 && TokenKey(ns1, sa1) == TokenKey(ns2, sa2)
    ensures ns1 == ns2 && sa1 == sa2
  {
    assert TokenKey(ns1, sa1) == ns1 + ['/'] + sa1 && TokenKey(ns2, sa2) == ns2 + ['/'] + sa2;
    SplitFirst(ns1, '/', sa1);
    SplitFirst(ns2, '/', sa2);
    var key := TokenKey(ns1, sa1);
    assert ns1 == Split(key, '/')[0] == ns2;
    assert sa1 == key[|ns1| + 1..] == sa2;
  }

  /** Storing a token for one account leaves every other account's token as it is. */
  lemma StoreIsPrivate(tokens: Tokens, ns1: string, sa1: string, token: Token, ns2: string, sa2: string, now: int)
    requires '/' !in ns1 && '/' !in ns2 && (ns1, sa1) != (ns2, sa2)
    ensures var after := Next(tokens, Stored(TokenKey(ns1, sa1), token, now));
            (TokenKey(ns2, sa2) in after <==> TokenKey(ns2, sa2) in tokens) &&
            (TokenKey(ns2, sa2) in tokens ==> after[TokenKey(ns2, sa2)] == tokens[TokenKey(ns2, sa2)])
  {
    if TokenKey(ns1, sa1) == TokenKey(ns2, sa2) {
      TokenKeyInjective(ns1, sa1, ns2, sa2);
    }
  }
}
