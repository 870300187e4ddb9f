/** The per-request cancellation registry with its bounded tombstone set. */
module Requests {
  import opened Basics
  import opened Cancellation

  /** `(connection_id, request_id)`. */
  datatype RequestKey = RequestKey(connection: nat, request: string)

  datatype RequestHandle = RequestHandle(sessionId: string, token: TokenId)

  const MAX_TOMBSTONES: nat := 256

  /** What happened to the registry, oldest first. */
  datatype Happening =
    | Registered(key: RequestKey)
    | Unregistered(key: RequestKey)
    | Missed(key: RequestKey)
    | Evicted(key: RequestKey)

  /** A cancel for `k` is waiting for its registration: the last happening that
      concerns its tombstone is a missed cancel. */
  predicate Waiting(h: seq<Happening>, k: RequestKey) {
    h != [] &&
    match h[|h| - 1]
    case Missed(m) => m == k || Waiting(h[..|h| - 1], k)
    case Registered(m) => m != k && Waiting(h[..|h| - 1], k)
    case Evicted(m) => m != k && Waiting(h[..|h| - 1], k)
    case Unregistered(_) => Waiting(h[..|h| - 1], k)
  }

  /** A cancel of `k` missed at `i` and neither registered nor evicted since. */
  ghost predicate MissedSince(h: seq<Happening>, k: RequestKey, i: nat) {
    && i < |h| && h[i] == Missed(k)
    && forall j :: i < j < |h| ==> h[j] != Registered(k) && h[j] != Evicted(k)
  }

  lemma {:induction false} WaitingMeansMissed(h: seq<Happening>, k: RequestKey)
    ensures Waiting(h, k) <==> exists i: nat :: MissedSince(h, k, i)
  {
    if h != [] {
      var init := h[..|h| - 1];
      WaitingMeansMissed(init, k);
      if Waiting(h, k) {
        if h[|h| - 1] == Missed(k) {
          assert MissedSince(h, k, |h| - 1);
        } else {
          var i: nat :| MissedSince(init, k, i);
          assert MissedSince(h, k, i);
        }
      }
      if i: nat :| MissedSince(h, k, i) {
        if i < |init| {
          assert MissedSince(init, k, i);
        }
      }
    }
  }

  class RequestRegistry {
    const tokens: TokenArena
    var handles: map<RequestKey, RequestHandle>
    var tombstones: set<RequestKey>
    ghost var history: seq<Happening>

    constructor (tokens: TokenArena)
      ensures this.tokens == tokens && handles == map[] && tombstones == {} && history == []
      ensures Valid()
    {
      this.tokens := tokens;
      handles, tombstones, history := map[], {}, [];
    }

    ghost predicate Valid()
      reads this
    {
      && handles.Keys !! tombstones
      && |tombstones| <= MAX_TOMBSTONES
      && forall k :: k in tombstones <==> Waiting(history, k)
    }

    /** The token is cancelled at once exactly when a missed cancel is waiting; an
        earlier registration under the same key is replaced. */
    method Register(key: RequestKey, sessionId: string, token: TokenId)
      requires Valid()
      modifies this, tokens
      ensures Valid()
      ensures history == old(history) + [Registered(key)]
      ensures handles == old(handles)[key := RequestHandle(sessionId, token)]
      ensures tombstones == old(tombstones) - {key}
      ensures tokens.fired == old(tokens.fired) + (if Waiting(old(history), key) then {token} else {})
      ensures tokens.issued == old(tokens.issued)
    {
      if key in tombstones {
        tombstones := tombstones - {key};
        tokens.Cancel(token);
      }
      handles := handles[key := RequestHandle(sessionId, token)];
      history := history + [Registered(key)];
    }

    /** A missed cancel of `key` that cost the tombstone `victim`, perhaps its own. */
    ghost predicate EvictedOne(before: seq<Happening>, stones: set<RequestKey>, key: RequestKey, victim: RequestKey)
      reads this
    {
      && victim in stones + {key}
      && history == before + [Missed(key), Evicted(victim)]
      && tombstones == stones + {key} - {victim}
    }

    method Unregister(key: RequestKey)
      requires Valid()
      modifies this
      ensures Valid()
      ensures history == old(history) + [Unregistered(key)]
      ensures handles == old(handles) - {key} && tombstones == old(tombstones)
    {
      handles := handles - {key};
      history := history + [Unregistered(key)];
    }

    /** Fires the token of exactly the named request, and only for its own session;
        otherwise fires nothing. A miss is remembered, at the price of evicting an
        arbitrary tombstone when the set is full. */
    method Cancel(key: RequestKey, sessionId: string) returns (r: Result<bool, string>)
      requires Valid()
      modifies this, tokens
      ensures Valid()
      ensures handles == old(handles) && tokens.issued == old(tokens.issued)
      ensures key !in handles ==>
        && r == Ok(false) && tokens.fired == old(tokens.fired)
        && (if |old(tombstones) + {key}| <= MAX_TOMBSTONES
            then history == old(history) + [Missed(key)] && tombstones == old(tombstones) + {key}
            else exists victim :: EvictedOne(old(history), old(tombstones), key, victim))
      ensures key in handles ==>
        && history == old(history) && tombstones == old(tombstones)
        && (if handles[key].sessionId == sessionId
            then r == Ok(true) && tokens.fired == old(tokens.fired) + {handles[key].token}
            else r.Err? && tokens.fired == old(tokens.fired))
    {
      if key in handles {
        if handles[key].sessionId == sessionId {
          tokens.Cancel(handles[key].token);
          return Ok(true);
        }
        return Err("request does not belong to the named session");
      }
      tombstones := tombstones + {key};
      history := history + [Missed(key)];
      if |tombstones| > MAX_TOMBSTONES {
        var oldest :| oldest in tombstones;
        tombstones := tombstones - {oldest};
        history := history + [Evicted(oldest)];
        assert EvictedOne(old(history), old(tombstones), key, oldest);
      }
      r := Ok(false);
    }
  }
}
