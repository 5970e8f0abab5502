/** The server's table of clients. */
module Registry {
  const CLIENTS_MAX: nat := 16
  const INACTIVITY_MAX: nat := 3

  type Address = int

  datatype Client = Client(active: bool, name: string, sock: int, addr: Address, inactivity: nat)

  type Table = t: seq<Client> | |t| == CLIENTS_MAX witness seq(CLIENTS_MAX, _ => Client(false, "", 0, 0, 0))

  // ----- lookups -----

  /** id is the first slot with the property, or -1 when there is none. */
  ghost predicate First(table: Table, holds: Client -> bool, id: int) {
    && -1 <= id < CLIENTS_MAX
    && (id >= 0 ==> holds(table[id]))
    && (forall i :: 0 <= i < (if id < 0 then CLIENTS_MAX else id) ==> !holds(table[i]))
  }

  predicate Free(c: Client) {
    !c.active
  }

  function IsAt(addr: Address): Client -> bool {
    (c: Client) => c.active && c.addr == addr
  }

  function IsCalled(name: string): Client -> bool {
    (c: Client) => c.active && c.name == name
  }

  /** The first slot from i on with the property, or -1. */
  function FindFrom(table: Table, holds: Client -> bool, i: nat): int
    requires i <= CLIENTS_MAX
    decreases CLIENTS_MAX - i
  {
    if i == CLIENTS_MAX then -1 else if holds(table[i]) then i else FindFrom(table, holds, i + 1)
  }

  function Find(table: Table, holds: Client -> bool): int {
    FindFrom(table, holds, 0)
  }

  lemma {:induction false} FindFromIsFirst(table: Table, holds: Client -> bool, i: nat)
    requires i <= CLIENTS_MAX && forall k :: 0 <= k < i ==> !holds(table[k])
    ensures First(table, holds, FindFrom(table, holds, i))
    ensures FindFrom(table, holds, i) < 0 || i <= FindFrom(table, holds, i)
    decreases CLIENTS_MAX - i
  {
    if i < CLIENTS_MAX && !holds(table[i]) {
      FindFromIsFirst(table, holds, i + 1);
    }
  }

  /** id is the first slot with an active client at the address, or -1 when there is none. */
  ghost predicate FirstActiveAt(table: Table, addr: Address, id: int) {
    && -1 <= id < CLIENTS_MAX
    && (id >= 0 ==> table[id].active && table[id].addr == addr)
    && (forall i :: 0 <= i < (if id < 0 then CLIENTS_MAX else id) ==> !(table[i].active && table[i].addr == addr))
  }

  lemma FindsTheAddress(table: Table, addr: Address)
    ensures FirstActiveAt(table, addr, Find(table, IsAt(addr)))
  {
    FindFromIsFirst(table, IsAt(addr), 0);
    assert forall i :: 0 <= i < CLIENTS_MAX ==> IsAt(addr)(table[i]) == (table[i].active && table[i].addr == addr);
  }

  // ----- changes -----

  /** Names tell active clients apart. */
  ghost predicate NamesDiffer(table: Table) {
    forall i, j :: 0 <= i < j < CLIENTS_MAX && table[i].active && table[j].active ==> table[i].name != table[j].name
  }

  predicate Taken(table: Table, name: string) {
    Find(table, IsCalled(name)) >= 0
  }

  /** The second half of register_client, under the lock. */
  function Insert(table: Table, name: string, sock: int, addr: Address): Table {
    var id := Find(table, Free);
    FindFromIsFirst(table, Free, 0);
    if id < 0 then table else table[id := Client(true, name, sock, addr, 0)]
  }

  function Remove(table: Table, id: int): Table
    requires id < CLIENTS_MAX
  {
    if id < 0 then table else table[id := table[id].(active := false)]
  }

  predicate TimedOut(c: Client) {
    c.inactivity > INACTIVITY_MAX
  }

  /** What a ping round does to one slot. */
  function Ping(c: Client): Client {
    if !c.active then c
    else if TimedOut(c) then c.(active := false)
    else c.(inactivity := c.inactivity + 1)
  }

  /** Slot i is the one that the next client gets. */
  ghost predicate NextSlot(table: Table, i: int) {
    0 <= i < CLIENTS_MAX && !table[i].active && forall j :: 0 <= j < i ==> table[j].active
  }

  /** A client that is let in gets the first inactive slot with all that it has given and a fresh counter; the other
      slots keep what they hold, and so do all of them when every slot is active. */
  ghost predicate LetIn(table: Table, after: Table, name: string, sock: int, addr: Address) {
    forall i :: 0 <= i < CLIENTS_MAX ==>
      if NextSlot(table, i) then
        && after[i].active && after[i].name == name && after[i].sock == sock && after[i].addr == addr
        && after[i].inactivity == 0
      else after[i] == table[i]
  }

  /** Slot id is inactive and keeps the rest of its fields, as all other slots keep all of theirs; a negative id is
      nobody's. */
  ghost predicate LetGo(table: Table, after: Table, id: int) {
    forall i :: 0 <= i < CLIENTS_MAX ==>
      if i == id then
        && !after[i].active && after[i].name == table[i].name && after[i].sock == table[i].sock
        && after[i].addr == table[i].addr && after[i].inactivity == table[i].inactivity
      else after[i] == table[i]
  }

  /** What a ping round leaves in a slot: one visit without an answer more, or an inactive slot when there have been
      more than CONF_INACTIVITY_MAX of them. */
  ghost predicate Pinged(c: Client, after: Client) {
    && after.name == c.name && after.sock == c.sock && after.addr == c.addr
    && (after.active <==> c.active && c.inactivity <= INACTIVITY_MAX)
    && after.inactivity == c.inactivity + if after.active then 1 else 0
  }

  lemma InsertLetsIn(table: Table, name: string, sock: int, addr: Address)
    ensures LetIn(table, Insert(table, name, sock, addr), name, sock, addr)
  {
    FindFromIsFirst(table, Free, 0);
    assert forall i :: 0 <= i < CLIENTS_MAX ==> Free(table[i]) == !table[i].active;
  }

  /** Inserting keeps the names apart exactly when the name is not taken at that moment, or there is no room. */
  lemma InsertKeepsNames(table: Table, name: string, sock: int, addr: Address)
    requires NamesDiffer(table)
    ensures NamesDiffer(Insert(table, name, sock, addr)) <==> !Taken(table, name) || Find(table, Free) < 0
  {
    FindFromIsFirst(table, IsCalled(name), 0);
    FindFromIsFirst(table, Free, 0);
    var after, id := Insert(table, name, sock, addr), Find(table, Free);
    assert !Taken(table, name) ==> forall i :: 0 <= i < CLIENTS_MAX ==> !IsCalled(name)(table[i]);
    if Taken(table, name) && id >= 0 {
      var k := Find(table, IsCalled(name));
      assert after[k] == table[k] && after[id].name == name;
      assert !NamesDiffer(after);
    }
  }

  /** Two threads that both check a name before either inserts it, as the accepting threads of the stream build may:
      with two free slots the name ends up in the table twice. */
  lemma TwoChecksFirst(table: Table, name: string, sock: int, addr: Address, sock': int, addr': Address)
    requires NamesDiffer(table) && !Taken(table, name)
    requires Find(table, Free) >= 0 && Find(Insert(table, name, sock, addr), Free) >= 0
    ensures !NamesDiffer(Insert(Insert(table, name, sock, addr), name, sock', addr'))
  {
    var once := Insert(table, name, sock, addr);
    InsertKeepsNames(table, name, sock, addr);
    FindFromIsFirst(table, Free, 0);
    FindFromIsFirst(once, IsCalled(name), 0);
    assert IsCalled(name)(once[Find(table, Free)]);
    InsertKeepsNames(once, name, sock', addr');
  }

  // ----- round robin -----

  /** How many slots the scan from free passes before it comes to slot i. */
  function Distance(free: nat, i: nat): (d: int)
    requires free <= CLIENTS_MAX && i < CLIENTS_MAX
    ensures 0 <= d < CLIENTS_MAX && (free + d) % CLIENTS_MAX == i
  {
    if i >= free then i - free else i - free + CLIENTS_MAX
  }

  /** pick is the active slot nearest behind free, or -1 when nobody is active. */
  ghost predicate Nearest(table: Table, free: nat, pick: int)
    requires free <= CLIENTS_MAX
  {
    if pick < 0 then
      pick == -1 && forall i :: 0 <= i < CLIENTS_MAX ==> !table[i].active
    else
      && pick < CLIENTS_MAX && table[pick].active
      && forall i :: 0 <= i < CLIENTS_MAX && table[i].active ==> Distance(free, pick) <= Distance(free, i)
  }

  class Server {
    const clients: array<Client>
    var freeCl: nat

    constructor ()
      ensures Valid() && fresh(clients) && freeCl == 0
      ensures forall i :: 0 <= i < CLIENTS_MAX ==> !clients[i].active
    {
      clients := new Client[CLIENTS_MAX](_ => Client(false, "", 0, 0, 0));
      freeCl := 0;
    }

    predicate Valid() reads this {
      clients.Length == CLIENTS_MAX && freeCl <= CLIENTS_MAX
    }

    ghost function Slots(): Table reads this, clients
      requires Valid()
    {
      clients[..]
    }

    /** client_freeid */
    method FreeId() returns (id: int)
      requires Valid()
      ensures id == Find(Slots(), Free) && First(Slots(), Free, id)
      ensures if id < 0 then id == -1 && forall i :: 0 <= i < CLIENTS_MAX ==> Slots()[i].active
              else NextSlot(Slots(), id)
    {
      id := Search(Free);
      assert forall i :: 0 <= i < CLIENTS_MAX ==> Free(Slots()[i]) == !Slots()[i].active;
    }

    /** client_for_addr */
    method ForAddr(addr: Address) returns (id: int)
      requires Valid()
      ensures id == Find(Slots(), IsAt(addr)) && FirstActiveAt(Slots(), addr, id)
    {
      FindsTheAddress(Slots(), addr);
      id := Search(IsAt(addr));
    }

    /** is_name_taken */
    method IsNameTaken(name: string) returns (taken: bool)
      requires Valid()
      ensures taken <==> exists i :: 0 <= i < CLIENTS_MAX && Slots()[i].active && Slots()[i].name == name
      ensures taken <==> Taken(Slots(), name)
    {
      var id := Search(IsCalled(name));
      assert id < 0 ==> forall i :: 0 <= i < CLIENTS_MAX ==> !IsCalled(name)(Slots()[i]);
      assert id >= 0 ==> IsCalled(name)(Slots()[id]);
      taken := id >= 0;
    }

    /** The loop that the lookups share. */
    method Search(holds: Client -> bool) returns (id: int)
      requires Valid()
      ensures id == Find(Slots(), holds) && First(Slots(), holds, id)
    {
      id := -1;
      FindFromIsFirst(Slots(), holds, 0);
      for i := 0 to CLIENTS_MAX
        invariant id == -1 && Find(Slots(), holds) == FindFrom(Slots(), holds, i)
      {
        if holds(clients[i]) {
          id := i;
          break;
        }
      }
    }

    /** register_client; false when the name is in use. */
    method Register(name: string, sock: int, addr: Address) returns (ok: bool)
      requires Valid()
      modifies clients
      ensures Valid()
      ensures ok <==> forall i :: 0 <= i < CLIENTS_MAX && old(Slots())[i].active ==> old(Slots())[i].name != name
      ensures if ok then LetIn(old(Slots()), Slots(), name, sock, addr) else Slots() == old(Slots())
      ensures Slots() == if ok then Insert(old(Slots()), name, sock, addr) else old(Slots())
      ensures old(NamesDiffer(Slots())) ==> NamesDiffer(Slots())
    {
      var taken := IsNameTaken(name);
      if taken {
        return false;
      }
      if NamesDiffer(Slots()) {
        InsertKeepsNames(Slots(), name, sock, addr);
      }
      InsertLetsIn(Slots(), name, sock, addr);
      var id := FreeId();
      if id >= 0 {
        clients[id] := Client(true, name, sock, addr, 0);
      }
      return true;
    }

    /** unregister_client */
    method Unregister(id: int)
      requires Valid() && id < CLIENTS_MAX
      modifies clients
      ensures Valid() && LetGo(old(Slots()), Slots(), id)
      ensures Slots() == Remove(old(Slots()), id)
    {
      if id >= 0 {
        clients[id] := clients[id].(active := false);
      }
    }

    /** handle_pong */
    method Pong(id: nat)
      requires Valid() && id < CLIENTS_MAX
      modifies clients
      ensures Valid() && Slots() == old(Slots())[id := old(Slots())[id].(inactivity := 0)]
    {
      clients[id] := clients[id].(inactivity := 0);
    }

    /** One round of thread_pinger; the result is who is sent a ping, in order. */
    method PingRound() returns (pinged: seq<int>)
      requires Valid()
      modifies clients
      ensures Valid()
      ensures forall i :: 0 <= i < CLIENTS_MAX ==> Slots()[i] == Ping(old(Slots())[i])
      ensures forall i :: 0 <= i < CLIENTS_MAX ==> Pinged(old(Slots())[i], Slots()[i])
      ensures forall i :: i in pinged <==> 0 <= i < CLIENTS_MAX && Slots()[i].active
      ensures forall i, j :: 0 <= i < j < |pinged| ==> pinged[i] < pinged[j]
    {
      pinged := [];
      for i := 0 to CLIENTS_MAX
        invariant Valid()
        invariant forall k :: 0 <= k < CLIENTS_MAX ==>
                    clients[k] == if k < i then Ping(old(Slots())[k]) else old(Slots())[k]
        invariant forall k :: k in pinged <==> 0 <= k < i && clients[k].active
        invariant forall a, b :: 0 <= a < b < |pinged| ==> pinged[a] < pinged[b]
      {
        if !clients[i].active {
          continue;
        }
        if clients[i].inactivity > INACTIVITY_MAX {
          clients[i] := clients[i].(active := false);
        } else {
          clients[i] := clients[i].(inactivity := clients[i].inactivity + 1);
          assert forall k :: 0 <= k < |pinged| ==> pinged[k] in pinged;
          pinged := pinged + [i];
        }
      }
    }

    /** next_free_client */
    method NextFree() returns (pick: int)
      requires Valid()
      modifies this`freeCl
      ensures Valid() && Nearest(Slots(), old(freeCl), pick)
      ensures freeCl == if pick < 0 then old(freeCl) else pick + 1
    {
      var from := freeCl;
      while from != freeCl + CLIENTS_MAX
        invariant freeCl <= from <= freeCl + CLIENTS_MAX
        invariant forall i :: 0 <= i < CLIENTS_MAX && clients[i].active ==> Distance(freeCl, i) >= from - freeCl
      {
        if clients[from % CLIENTS_MAX].active {
          break;
        }
        from := from + 1;
      }
      if from == freeCl + CLIENTS_MAX {
        return -1;
      }
      from := from % CLIENTS_MAX;
      freeCl := from + 1;
      return from;
    }
  }
}

/** next_free_client called again and again while the table changes in any way between the calls. */
module RoundRobin {
  import opened Registry

  /** Call k finds tables[k] and free_cl == free[k], and returns picks[k]. */
  ghost predicate Calls(tables: seq<Table>, free: seq<nat>, picks: seq<int>) {
    && |picks| == |tables| && |free| == |tables| + 1 && free[0] <= CLIENTS_MAX
    && (forall k :: 0 <= k < |tables| ==>
          && free[k] <= CLIENTS_MAX
          && Nearest(tables[k], free[k], picks[k])
          && free[k + 1] == if picks[k] < 0 then free[k] else picks[k] + 1)
  }

  /** Client c is active in all of the calls from a up to, not including, b. */
  ghost predicate ActiveIn(tables: seq<Table>, c: nat, a: nat, b: nat) {
    c < CLIENTS_MAX && a <= b <= |tables| && forall k :: a <= k < b ==> tables[k][c].active
  }

  lemma FreeInRange(tables: seq<Table>, free: seq<nat>, picks: seq<int>, k: nat)
    requires Calls(tables, free, picks) && k <= |tables|
    ensures free[k] <= CLIENTS_MAX
  {
    if k > 0 {
      assert free[k - 1 + 1] == if picks[k - 1] < 0 then free[k - 1] else picks[k - 1] + 1;
    }
  }

  /** A call that does not pick an active c comes nearer to it. */
  lemma ComesNearer(table: Table, free: nat, pick: int, c: nat)
    requires free <= CLIENTS_MAX && Nearest(table, free, pick) && c < CLIENTS_MAX && table[c].active && pick != c
    ensures 0 <= pick < CLIENTS_MAX
    ensures Distance(pick + 1, c) == Distance(free, c) - Distance(free, pick) - 1
  {
  }

  /** While c is active and not picked, every call takes one off its distance at least. */
  lemma {:induction false} Approaches(tables: seq<Table>, free: seq<nat>, picks: seq<int>, c: nat, a: nat, b: nat)
    requires Calls(tables, free, picks) && ActiveIn(tables, c, a, b)
    requires forall k :: a <= k < b ==> picks[k] != c
    ensures free[a] <= CLIENTS_MAX && free[b] <= CLIENTS_MAX
    ensures Distance(free[b], c) + (b - a) <= Distance(free[a], c)
    decreases b
  {
    FreeInRange(tables, free, picks, a);
    FreeInRange(tables, free, picks, b);
    if a < b {
      Approaches(tables, free, picks, c, a, b - 1);
      assert tables[b - 1][c].active;
      ComesNearer(tables[b - 1], free[b - 1], picks[b - 1], c);
      assert free[b - 1 + 1] == picks[b - 1] + 1;
    }
  }

  /** A client that stays active is picked within CONF_CLIENTS_MAX calls. */
  lemma PickedSoon(tables: seq<Table>, free: seq<nat>, picks: seq<int>, c: nat, a: nat)
    requires Calls(tables, free, picks) && a + CLIENTS_MAX <= |tables| && ActiveIn(tables, c, a, a + CLIENTS_MAX)
    ensures exists k :: a <= k < a + CLIENTS_MAX && picks[k] == c
  {
    if forall k :: a <= k < a + CLIENTS_MAX ==> picks[k] != c {
      Approaches(tables, free, picks, c, a, a + CLIENTS_MAX);
    }
  }

  /** From a pick of d on, c comes before d as long as it is active and not picked. */
  lemma {:induction false} StaysAhead(tables: seq<Table>, free: seq<nat>, picks: seq<int>, c: nat, d: nat,
                                      a: nat, b: nat)
    requires Calls(tables, free, picks) && a < b && ActiveIn(tables, c, a + 1, b)
    requires c != d && d < CLIENTS_MAX && picks[a] == d && forall k :: a < k < b ==> picks[k] != c
    ensures free[b] <= CLIENTS_MAX && Distance(free[b], c) < Distance(free[b], d)
    decreases b
  {
    FreeInRange(tables, free, picks, b);
    if a + 1 == b {
      assert free[a + 1] == d + 1;
    } else {
      StaysAhead(tables, free, picks, c, d, a, b - 1);
      assert tables[b - 1][c].active;
      ComesNearer(tables[b - 1], free[b - 1], picks[b - 1], c);
      assert free[b - 1 + 1] == picks[b - 1] + 1;
    }
  }

  /** Nobody is picked twice while a client that stays active waits: it is picked in between. */
  lemma NoBypass(tables: seq<Table>, free: seq<nat>, picks: seq<int>, c: nat, d: nat, a: nat, b: nat)
    requires Calls(tables, free, picks) && a < b < |tables| && ActiveIn(tables, c, a + 1, b + 1)
    requires c != d && d < CLIENTS_MAX && picks[a] == d && picks[b] == d
    ensures exists k :: a < k < b && picks[k] == c
  {
    assert tables[b][c].active;
    if forall k :: a < k < b ==> picks[k] != c {
      StaysAhead(tables, free, picks, c, d, a, b);
    }
  }
}
