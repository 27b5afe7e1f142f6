/** The per-secret cache of Proxmox clients: a factory-wide map, and one lock per entry held through the dial. */
module ClientCache {
  import opened Base
  import opened Fingerprint
  import Zones

  /** constructionErrorTTL, in seconds. */
  const TTL := 30

  /** A client, known by the secret data it was built from. */
  datatype Client = Client(data: Data)

  datatype Attempt = Attempt(hash: int, started: int, ended: int, ok: bool)

  /** The entry's fields, the holder of its lock, and the history of its dials. */
  datatype Entry = Entry(
    owner: Option<nat>, client: Option<Client>, dataHash: int,
    failed: bool, failedHash: int, failedAt: int, attempts: seq<Attempt>)

  const EMPTY := Entry(None, None, 0, false, 0, 0, [])

  // ---- one entry, under its lock -----------------------------------------------------------------

  predicate Hit(e: Entry, hash: int) { e.client.Some? && e.dataHash == hash }

  predicate Remembered(e: Entry, hash: int, now: int) {
    e.failed && e.failedHash == hash && now - e.failedAt < TTL
  }

  function Dialled(e: Entry, data: Data, hash: int, started: int, now: int, ok: bool): Entry {
    var attempts := e.attempts + [Attempt(hash, started, now, ok)];
    if ok then e.(client := Some(Client(data)), dataHash := hash, failed := false, attempts := attempts)
    else e.(failed := true, failedHash := hash, failedAt := now, attempts := attempts)
  }

  class CacheEntry {
    var client: Option<Client>
    var dataHash: int
    var failed: bool
    var failedHash: int
    var failedAt: int
    ghost var attempts: seq<Attempt>

    ghost function View(): Entry
      reads this
    {
      Entry(None, client, dataHash, failed, failedHash, failedAt, attempts)
    }

    /** The critical section of GetOrCreate; None is an error. The dial's outcome and duration are inputs. */
    method GetOrCreate(data: Data, hash: int, now: int, dialOk: bool, done: int) returns (r: Option<Client>)
      requires now <= done
      modifies this
      ensures old(Hit(View(), hash)) ==> r == client && View() == old(View())
      ensures old(!Hit(View(), hash) && Remembered(View(), hash, now)) ==> r == None && View() == old(View())
      ensures old(!Hit(View(), hash) && !Remembered(View(), hash, now)) ==>
                r == (if dialOk then Some(Client(data)) else None)
                && View() == Dialled(old(View()), data, hash, now, done, dialOk)
    {
      if client.Some? && dataHash == hash {
        return client;
      }
      if failed && failedHash == hash && now - failedAt < TTL {
        return None;
      }
      attempts := attempts + [Attempt(hash, now, done, dialOk)];
      if !dialOk {
        failed, failedHash, failedAt := true, hash, done;
        return None;
      }
      failed := false;
      dataHash := hash;
      client := Some(Client(data));
      return client;
    }
  }

  // ---- all interleavings -------------------------------------------------------------------------

  /** Where a goroutine stands: before or inside an entry's critical section, or done. */
  datatype Thread =
    | Idle
    | Waiting(e: nat, data: Data)
    | Holding(e: nat, data: Data)
    | Dialing(e: nat, data: Data, started: int)
    | Got(data: Data, client: Client)
    | Failed(data: Data)
    | Evicting(e: nat)

  datatype State = State(clients: map<Zones.SecretKey, nat>, entries: seq<Entry>, threads: map<nat, Thread>, now: int)

  datatype Action =
    | Lookup(key: Zones.SecretKey, data: Data)
    | Acquire
    | Check
    | Finish(ok: bool)
    | Evict(key: Zones.SecretKey)
    | Clear
    | Reset
    | Tick(seconds: nat)

  predicate Holds(th: Thread, e: nat) { (th.Holding? || th.Dialing?) && th.e == e }

  predicate Enabled(s: State, t: nat, a: Action) {
    && t in s.threads
    && var th := s.threads[t];
       match a
       case Lookup(_, _) => th.Idle?
       case Acquire => th.Waiting? && th.e < |s.entries| && s.entries[th.e].owner.None?
       case Check => th.Holding? && th.e < |s.entries|
       case Finish(_) => th.Dialing? && th.e < |s.entries|
       case Evict(_) => th.Idle?
       case Clear => th.Evicting? && th.e < |s.entries| && s.entries[th.e].owner.None?
       case Reset => th.Got? || th.Failed?
       case Tick(_) => true
  }

  function Moved(s: State, t: nat, th: Thread): State { s.(threads := s.threads[t := th]) }

  function Edited(s: State, e: nat, entry: Entry): State
    requires e < |s.entries|
  {
    s.(entries := s.entries[e := entry])
  }

  /** One step of thread t; sha is the hash function. */
  function Next(sha: string -> int, s: State, t: nat, a: Action): State
    requires Enabled(s, t, a)
  {
    var th := s.threads[t];
    match a
    case Lookup(key, data) =>
      if key in s.clients then Moved(s, t, Waiting(s.clients[key], data))
      else
        Moved(s.(clients := s.clients[key := |s.entries|], entries := s.entries + [EMPTY]),
              t, Waiting(|s.entries|, data))
    case Acquire => Moved(Edited(s, th.e, s.entries[th.e].(owner := Some(t))), t, Holding(th.e, th.data))
    case Check =>
      var entry, hash := s.entries[th.e], sha(HashInput(th.data));
      if Hit(entry, hash) then Moved(Edited(s, th.e, entry.(owner := None)), t, Got(th.data, entry.client.value))
      else if Remembered(entry, hash, s.now) then Moved(Edited(s, th.e, entry.(owner := None)), t, Failed(th.data))
      else Moved(s, t, Dialing(th.e, th.data, s.now))
    case Finish(ok) =>
      var entry := Dialled(s.entries[th.e], th.data, sha(HashInput(th.data)), th.started, s.now, ok);
      Moved(Edited(s, th.e, entry.(owner := None)), t, if ok then Got(th.data, Client(th.data)) else Failed(th.data))
    case Evict(key) =>
      if key in s.clients then Moved(s.(clients := s.clients - {key}), t, Evicting(s.clients[key]))
      else Moved(s, t, Idle)
    case Clear => Moved(Edited(s, th.e, s.entries[th.e].(client := None)), t, Idle)
    case Reset => Moved(s, t, Idle)
    case Tick(seconds) => s.(now := s.now + seconds)
  }

  // ---- what every step keeps ---------------------------------------------------------------------

  /** A dial after a failed one of the same data starts at least the TTL after that one ended. */
  predicate MayFollow(attempts: seq<Attempt>, hash: int, started: int) {
    attempts != [] && !attempts[|attempts| - 1].ok && attempts[|attempts| - 1].hash == hash ==>
      started - attempts[|attempts| - 1].ended >= 30
  }

  predicate Spaced(attempts: seq<Attempt>) {
    forall i :: 0 < i < |attempts| ==> MayFollow(attempts[..i], attempts[i].hash, attempts[i].started)
  }

  predicate EntryOk(sha: string -> int, e: Entry, now: int) {
    && (e.client.Some? ==> sha(HashInput(e.client.value.data)) == e.dataHash)
    && Spaced(e.attempts)
    && (e.attempts == [] ==> !e.failed)
    && (e.attempts != [] ==>
          var last := e.attempts[|e.attempts| - 1];
          && e.failed == !last.ok && last.ended <= now
          && (e.failed ==> e.failedHash == last.hash && e.failedAt == last.ended))
  }

  predicate ThreadOk(sha: string -> int, entries: seq<Entry>, now: int, t: nat, th: Thread) {
    match th
    case Idle => true
    case Waiting(e, _) => e < |entries|
    case Evicting(e) => e < |entries|
    case Holding(e, _) => e < |entries| && entries[e].owner == Some(t)
    case Dialing(e, data, started) =>
      && e < |entries| && entries[e].owner == Some(t) && started <= now
      && MayFollow(entries[e].attempts, sha(HashInput(data)), started)
    case Got(data, client) => sha(HashInput(client.data)) == sha(HashInput(data))
    case Failed(_) => true
  }

  ghost predicate Inv(sha: string -> int, s: State) {
    && (forall e :: 0 <= e < |s.entries| ==> EntryOk(sha, s.entries[e], s.now))
    && (forall k :: k in s.clients ==> s.clients[k] < |s.entries|)
    && (forall t :: t in s.threads ==> ThreadOk(sha, s.entries, s.now, t, s.threads[t]))
  }

  lemma MoveKeeps(sha: string -> int, s: State, t: nat, th: Thread)
    requires Inv(sha, s) && ThreadOk(sha, s.entries, s.now, t, th)
    ensures Inv(sha, Moved(s, t, th))
  {
  }

  /** Editing an entry, its lock free or held by t, disturbs no other thread. */
  lemma EditKeeps(sha: string -> int, s: State, e: nat, entry: Entry, t: nat, th: Thread)
    requires Inv(sha, s) && e < |s.entries| && EntryOk(sha, entry, s.now)
    requires s.entries[e].owner.None? || s.entries[e].owner == Some(t)
    requires ThreadOk(sha, s.entries[e := entry], s.now, t, th)
    ensures Inv(sha, Moved(Edited(s, e, entry), t, th))
  {
    var s' := Moved(Edited(s, e, entry), t, th);
    forall u | u in s'.threads ensures ThreadOk(sha, s'.entries, s'.now, u, s'.threads[u]) {
      if u != t {
        assert ThreadOk(sha, s.entries, s.now, u, s.threads[u]);
      }
    }
  }

  lemma AddKeeps(sha: string -> int, s: State, key: Zones.SecretKey)
    requires Inv(sha, s)
    ensures Inv(sha, s.(clients := s.clients[key := |s.entries|], entries := s.entries + [EMPTY]))
  {
    var s' := s.(clients := s.clients[key := |s.entries|], entries := s.entries + [EMPTY]);
    forall u | u in s'.threads ensures ThreadOk(sha, s'.entries, s'.now, u, s'.threads[u]) {
      assert ThreadOk(sha, s.entries, s.now, u, s.threads[u]);
    }
  }

  lemma DialKeeps(sha: string -> int, e: Entry, data: Data, started: int, now: int, ok: bool)
    requires EntryOk(sha, e, now) && started <= now && MayFollow(e.attempts, sha(HashInput(data)), started)
    ensures EntryOk(sha, Dialled(e, data, sha(HashInput(data)), started, now, ok).(owner := None), now)
  {
    var hash := sha(HashInput(data));
    var attempts := e.attempts + [Attempt(hash, started, now, ok)];
    forall i | 0 < i < |attempts| ensures MayFollow(attempts[..i], attempts[i].hash, attempts[i].started) {
      if i < |e.attempts| {
        assert attempts[..i] == e.attempts[..i];
      } else {
        assert attempts[..i] == e.attempts;
      }
    }
  }

  lemma CheckKeeps(sha: string -> int, s: State, t: nat)
    requires Inv(sha, s) && Enabled(s, t, Check)
    ensures Inv(sha, Next(sha, s, t, Check))
  {
    var th := s.threads[t];
    var entry, hash := s.entries[th.e], sha(HashInput(th.data));
    assert ThreadOk(sha, s.entries, s.now, t, th);
    if Hit(entry, hash) {
      EditKeeps(sha, s, th.e, entry.(owner := None), t, Got(th.data, entry.client.value));
    } else if Remembered(entry, hash, s.now) {
      EditKeeps(sha, s, th.e, entry.(owner := None), t, Failed(th.data));
    } else {
      MoveKeeps(sha, s, t, Dialing(th.e, th.data, s.now));
    }
  }

  lemma NextKeeps(sha: string -> int, s: State, t: nat, a: Action)
    requires Inv(sha, s) && Enabled(s, t, a)
    ensures Inv(sha, Next(sha, s, t, a))
  {
    var th := s.threads[t];
    assert ThreadOk(sha, s.entries, s.now, t, th);
    match a {
      case Lookup(key, data) =>
        if key in s.clients {
          MoveKeeps(sha, s, t, Waiting(s.clients[key], data));
        } else {
          AddKeeps(sha, s, key);
          MoveKeeps(sha, s.(clients := s.clients[key := |s.entries|], entries := s.entries + [EMPTY]),
                    t, Waiting(|s.entries|, data));
        }
      case Acquire => EditKeeps(sha, s, th.e, s.entries[th.e].(owner := Some(t)), t, Holding(th.e, th.data));
      case Check => CheckKeeps(sha, s, t);
      case Finish(ok) =>
        DialKeeps(sha, s.entries[th.e], th.data, th.started, s.now, ok);
        EditKeeps(sha, s, th.e,
                  Dialled(s.entries[th.e], th.data, sha(HashInput(th.data)), th.started, s.now, ok).(owner := None),
                  t, if ok then Got(th.data, Client(th.data)) else Failed(th.data));
      case Evict(key) =>
        if key in s.clients {
          MoveKeeps(sha, s.(clients := s.clients - {key}), t, Evicting(s.clients[key]));
        } else {
          MoveKeeps(sha, s, t, Idle);
        }
      case Clear => EditKeeps(sha, s, th.e, s.entries[th.e].(client := None), t, Idle);
      case Reset => MoveKeeps(sha, s, t, Idle);
      case Tick(seconds) => TickKeeps(sha, s, seconds);
    }
  }

  lemma TickKeeps(sha: string -> int, s: State, seconds: nat)
    requires Inv(sha, s)
    ensures Inv(sha, s.(now := s.now + seconds))
  {
    forall u | u in s.threads ensures ThreadOk(sha, s.entries, s.now + seconds, u, s.threads[u]) {
      assert ThreadOk(sha, s.entries, s.now, u, s.threads[u]);
    }
  }

  // ---- runs --------------------------------------------------------------------------------------

  datatype Move = Move(thread: nat, action: Action)

  ghost predicate Reaches(sha: string -> int, s: State, moves: seq<Move>, s': State)
    decreases |moves|
  {
    if moves == [] then s' == s
    else
      && Enabled(s, moves[0].thread, moves[0].action)
      && Reaches(sha, Next(sha, s, moves[0].thread, moves[0].action), moves[1..], s')
  }

  predicate Initial(s: State) {
    s.clients == map[] && s.entries == [] && forall t :: t in s.threads ==> s.threads[t] == Idle
  }

  lemma {:induction false} RunKeeps(sha: string -> int, s: State, moves: seq<Move>, s': State)
    requires Inv(sha, s) && Reaches(sha, s, moves, s')
    ensures Inv(sha, s')
    decreases |moves|
  {
    if moves != [] {
      NextKeeps(sha, s, moves[0].thread, moves[0].action);
      RunKeeps(sha, Next(sha, s, moves[0].thread, moves[0].action), moves[1..], s');
    }
  }

  /** Whatever the interleaving: a returned client was built from data with the requested fingerprint. */
  lemma CacheIsCoherent(sha: string -> int, s: State, moves: seq<Move>, s': State, t: nat)
    requires Initial(s) && Reaches(sha, s, moves, s') && t in s'.threads && s'.threads[t].Got?
    ensures var th := s'.threads[t]; sha(HashInput(th.client.data)) == sha(HashInput(th.data))
  {
    RunKeeps(sha, s, moves, s');
    assert ThreadOk(sha, s'.entries, s'.now, t, s'.threads[t]);
  }

  /** So, short of a hash collision, it was built from the very credentials asked for. */
  lemma ClientHasTheCredentials(sha: string -> int, s: State, moves: seq<Move>, s': State, t: nat)
    requires Initial(s) && Reaches(sha, s, moves, s') && t in s'.threads && s'.threads[t].Got?
    requires var th := s'.threads[t];
             && (sha(HashInput(th.client.data)) == sha(HashInput(th.data)) ==> HashInput(th.client.data) == HashInput(th.data))
             && NulFreeCredentials(th.client.data) && NulFreeCredentials(th.data)
    ensures SameCredentials(s'.threads[t].client.data, s'.threads[t].data)
  {
    CacheIsCoherent(sha, s, moves, s', t);
    HashInputInjective(s'.threads[t].client.data, s'.threads[t].data);
  }

  /** A dead endpoint is dialled at most once per TTL for the same data. */
  lemma DialsAreSpaced(sha: string -> int, s: State, moves: seq<Move>, s': State, e: nat, i: nat)
    requires Initial(s) && Reaches(sha, s, moves, s') && e < |s'.entries| && i + 1 < |s'.entries[e].attempts|
    ensures var a, b := s'.entries[e].attempts[i], s'.entries[e].attempts[i + 1];
            !a.ok && b.hash == a.hash ==> b.started - a.ended >= 30
  {
    RunKeeps(sha, s, moves, s');
    assert EntryOk(sha, s'.entries[e], s'.now);
    assert MayFollow(s'.entries[e].attempts[..i + 1], s'.entries[e].attempts[i + 1].hash,
                     s'.entries[e].attempts[i + 1].started);
  }

  /** The dial happens under the entry's lock: no two threads are inside one entry. */
  lemma OneThreadPerEntry(sha: string -> int, s: State, moves: seq<Move>, s': State, t: nat, u: nat, e: nat)
    requires Initial(s) && Reaches(sha, s, moves, s') && t in s'.threads && u in s'.threads
    requires Holds(s'.threads[t], e) && Holds(s'.threads[u], e)
    ensures t == u
  {
    RunKeeps(sha, s, moves, s');
    assert ThreadOk(sha, s'.entries, s'.now, t, s'.threads[t]);
    assert ThreadOk(sha, s'.entries, s'.now, u, s'.threads[u]);
  }
}
