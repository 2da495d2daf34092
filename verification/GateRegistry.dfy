/** `file_gate` of src/fileio.rs: a registry of weak references to one mutex per
    (mount, file handle, kind), shared by every batch on that file. */
module GateRegistry {

  datatype Key = Key(mount: nat, handle: seq<int>, kind: nat)

  type Mutex = nat
  type Client = nat

  /** A client's strong reference: it waits for the mutex or holds its guard. */
  datatype Seat = Seat(key: Key, mutex: Mutex, holds: bool)

  predicate Live(seats: map<Client, Seat>, m: Mutex) {
    exists c <- seats :: seats[c].mutex == m
  }

  /** Whoever is at a key's gate is at the mutex registered for it, a registered
      mutex serves one key, and a mutex has at most one holder. */
  ghost predicate Sound(gates: map<Key, Mutex>, seats: map<Client, Seat>, next: Mutex) {
    && (forall c <- seats :: seats[c].key in gates && gates[seats[c].key] == seats[c].mutex)
    && (forall k <- gates :: gates[k] < next)
    && (forall j <- gates, k <- gates :: gates[j] == gates[k] ==> j == k)
    && (forall c <- seats, d <- seats ::
          seats[c].holds && seats[d].holds && seats[c].mutex == seats[d].mutex ==> c == d)
  }

  /** Two batches on the same key never overlap: there is one mutex per key among
      all clients, and one holder per key. */
  lemma OneLockPerKey(gates: map<Key, Mutex>, seats: map<Client, Seat>, next: Mutex, c: Client, d: Client)
    requires Sound(gates, seats, next) && c in seats && d in seats
    ensures seats[c].key == seats[d].key <==> seats[c].mutex == seats[d].mutex
    ensures seats[c].key == seats[d].key && seats[c].holds && seats[d].holds ==> c == d
  {
    assert gates[seats[c].key] == seats[c].mutex && gates[seats[d].key] == seats[d].mutex;
  }

  lemma JoinSound(gates: map<Key, Mutex>, seats: map<Client, Seat>, next: Mutex, c: Client, key: Key)
    requires Sound(gates, seats, next) && c !in seats && key in gates
    ensures Sound(gates, seats[c := Seat(key, gates[key], false)], next)
  {
  }

  lemma PurgeSound(gates: map<Key, Mutex>, seats: map<Client, Seat>, next: Mutex)
    requires Sound(gates, seats, next)
    ensures Sound(Purged(gates, seats), seats, next)
    ensures forall k :: k in Purged(gates, seats) <==> k in gates && Live(seats, gates[k])
  {
    forall c | c in seats ensures seats[c].key in Purged(gates, seats) {
      assert seats[c].mutex == gates[seats[c].key];
      assert Live(seats, gates[seats[c].key]);
    }
  }

  lemma RegisterSound(gates: map<Key, Mutex>, seats: map<Client, Seat>, next: Mutex, c: Client, key: Key)
    requires Sound(gates, seats, next) && c !in seats && key !in gates
    ensures Sound(gates[key := next], seats[c := Seat(key, next, false)], next + 1)
    ensures forall d <- seats :: seats[d].key != key && seats[d].mutex != next
  {
    forall d | d in seats ensures seats[d].key != key && seats[d].mutex != next { }
  }

  lemma SameMutex(gates: map<Key, Mutex>, seats: map<Client, Seat>, next: Mutex, key: Key)
    requires Sound(gates, seats, next)
    ensures forall d <- seats :: seats[d].key in gates && gates[seats[d].key] == seats[d].mutex
    ensures key in gates && Live(seats, gates[key]) ==> exists d <- seats :: seats[d].key == key
  {
  }

  /** `retain`: entries whose mutex nobody references any more are dropped. */
  function Purged(gates: map<Key, Mutex>, seats: map<Client, Seat>): map<Key, Mutex> {
    map k | k in gates && Live(seats, gates[k]) :: gates[k]
  }

  /** The registry section: join the live mutex of the key, or register a new one. */
  function Entered(gates: map<Key, Mutex>, seats: map<Client, Seat>, next: Mutex, c: Client, key: Key)
    : (map<Key, Mutex>, map<Client, Seat>, Mutex)
  {
    if key in gates && Live(seats, gates[key]) then (gates, seats[c := Seat(key, gates[key], false)], next)
    else (Purged(gates, seats)[key := next], seats[c := Seat(key, next, false)], next + 1)
  }

  lemma EnteredSound(gates: map<Key, Mutex>, seats: map<Client, Seat>, next: Mutex, c: Client, key: Key)
    requires Sound(gates, seats, next) && c !in seats
    ensures var (g, s, n) := Entered(gates, seats, next, c, key); Sound(g, s, n)
    ensures var (_, s, _) := Entered(gates, seats, next, c, key);
      c in s && s == seats[c := Seat(key, s[c].mutex, false)]
  {
    hide Sound;
    if key in gates && Live(seats, gates[key]) {
      JoinSound(gates, seats, next, c, key);
    } else {
      PurgeSound(gates, seats, next);
      RegisterSound(Purged(gates, seats), seats, next, c, key);
    }
  }

  /** Entering joins whoever is at the key, or takes a mutex nobody has; other entries
      are kept or, when nobody uses them, dropped. */
  lemma EnteredJoins(gates: map<Key, Mutex>, seats: map<Client, Seat>, next: Mutex, c: Client, key: Key)
    requires Sound(gates, seats, next) && c !in seats
    ensures var (g, s, n) := Entered(gates, seats, next, c, key);
      && (forall d <- seats :: seats[d].key == key ==> s[c].mutex == seats[d].mutex)
      && (!(exists d <- seats :: seats[d].key == key) ==> !Live(seats, s[c].mutex))
      && (forall k <- g :: k == key || (k in gates && g[k] == gates[k])) && (forall d <- seats :: seats[d].key in g)
      && (n != next ==> forall k <- g :: Live(s, g[k]))
  {
    SameMutex(gates, seats, next, key);
    if !(key in gates && Live(seats, gates[key])) {
      PurgeSound(gates, seats, next);
      RegisterSound(Purged(gates, seats), seats, next, c, key);
      OnlyLiveLeft(gates, seats, next, c, key);
    }
  }

  lemma OnlyLiveLeft(gates: map<Key, Mutex>, seats: map<Client, Seat>, next: Mutex, c: Client, key: Key)
    requires c !in seats
    ensures var g, s := Purged(gates, seats)[key := next], seats[c := Seat(key, next, false)];
      forall k <- g :: Live(s, g[k])
  {
    var g, s := Purged(gates, seats)[key := next], seats[c := Seat(key, next, false)];
    forall k | k in g ensures Live(s, g[k]) {
      if k == key {
        assert s[c].mutex == next;
      } else {
        var d :| d in seats && seats[d].mutex == gates[k];
        assert s[d].mutex == g[k];
      }
    }
  }

  class Gates {
    var gates: map<Key, Mutex>
    var seats: map<Client, Seat>
    var next: Mutex

    ghost predicate Valid()
      reads this
    {
      Sound(gates, seats, next)
    }

    constructor ()
      ensures Valid() && gates == map[] && seats == map[]
    {
      gates, seats, next := map[], map[], 0;
    }

    /** The registry section: upgrade a live entry, or drop every dead entry and
        register a new mutex. */
    method Enter(c: Client, key: Key)
      requires Valid() && c !in seats
      modifies this
      ensures Valid()
      ensures c in seats && seats == old(seats)[c := Seat(key, seats[c].mutex, false)] && key in gates
      ensures forall d <- old(seats) :: old(seats)[d].key == key ==> seats[c].mutex == old(seats)[d].mutex
      ensures !(exists d <- old(seats) :: old(seats)[d].key == key) ==> !Live(old(seats), seats[c].mutex)
      ensures forall k <- gates :: k == key || (k in old(gates) && gates[k] == old(gates)[k])
      ensures forall d <- old(seats) :: old(seats)[d].key in gates
      ensures next != old(next) ==> forall k <- gates :: Live(seats, gates[k])
      ensures (gates, seats, next) == Entered(old(gates), old(seats), old(next), c, key)
    {
      hide Sound;
      EnteredSound(gates, seats, next, c, key);
      EnteredJoins(gates, seats, next, c, key);
      if key in gates && Live(seats, gates[key]) {
        seats := seats[c := Seat(key, gates[key], false)];
      } else {
        gates := Purged(gates, seats)[key := next];
        seats := seats[c := Seat(key, next, false)];
        next := next + 1;
      }
    }

    /** `lock_owned`: granted exactly when nobody holds this key. */
    method Lock(c: Client) returns (granted: bool)
      requires Valid() && c in seats && !seats[c].holds
      modifies this`seats
      ensures Valid()
      ensures granted <==> !(exists d <- old(seats) :: old(seats)[d].key == old(seats)[c].key && old(seats)[d].holds)
      ensures seats == if granted then old(seats)[c := old(seats)[c].(holds := true)] else old(seats)
    {
      granted := !(exists d <- seats :: seats[d].mutex == seats[c].mutex && seats[d].holds);
      forall d | d in seats ensures seats[d].mutex == seats[c].mutex <==> seats[d].key == seats[c].key {
        OneLockPerKey(gates, seats, next, c, d);
      }
      if granted {
        seats := seats[c := seats[c].(holds := true)];
      }
    }

    /** Dropping the guard, or a waiter that is cancelled: the reference goes away. */
    method Leave(c: Client)
      requires Valid() && c in seats
      modifies this`seats
      ensures Valid() && seats == old(seats) - {c}
    {
      seats := seats - {c};
    }
  }
}
