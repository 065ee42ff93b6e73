/**
 * The client-side address list kept by the resolver (common/discovery/resolver.go):
 * the membership test and removal by address, the fold of a batch of watch events
 * with its pushes to the RPC client, and the list built from a prefix scan.
 *
 * The record decoders (ParseValue for a stored value, ParseKey for a key) are not
 * part of this model; they are parameters of the operations that call them.
 */
module DiscoveryResolver {
  import opened Optional
  import opened DiscoveryServer

  type Bytes = seq<bv8>

  /** A resolver.Address: the address and, for entries built from a decoded record, its weight attribute. */
  datatype Address = Address(addr: string, weight: Option<int>)

  /** A key-value pair as returned by a scan or carried by a watch event. */
  datatype KeyValue = KeyValue(key: string, value: Bytes)

  datatype EventType = PUT | DELETE

  /** A watch event; for a deletion only the key is meaningful. */
  datatype Event = Event(typ: EventType, kv: KeyValue)

  /** What one batch leaves behind: the final list and, in order, every list pushed to the RPC client. */
  datatype Outcome = Outcome(list: seq<Address>, pushes: seq<seq<Address>>)

  /** The list entry built from a decoded record. */
  function AddressOf(s: Server): Address {
    Address(s.addr, Some(s.weight))
  }

  predicate HasAddr(list: seq<Address>, a: string) {
    exists i :: 0 <= i < |list| && list[i].addr == a
  }

  /** No two entries share an address. */
  predicate NoDupAddrs(list: seq<Address>) {
    forall i, j :: 0 <= i < j < |list| ==> list[i].addr != list[j].addr
  }

  /** Index of the first entry with address `a`, or |list| when there is none. */
  function IndexOfAddr(list: seq<Address>, a: string): (i: nat)
    ensures i <= |list|
    ensures i < |list| ==> list[i].addr == a
    ensures forall j :: 0 <= j < i ==> list[j].addr != a
  {
    if list == [] then 0
    else if list[0].addr == a then 0
    else 1 + IndexOfAddr(list[1..], a)
  }

  /** `list` with the entry at `i` overwritten by the last entry and the last position dropped. */
  function RemovedAt(list: seq<Address>, i: nat): (r: seq<Address>)
    requires i < |list|
    ensures |r| == |list| - 1
    ensures i < |r| ==> r[i] == list[|list| - 1]
    ensures forall j :: 0 <= j < |r| && j != i ==> r[j] == list[j]
  {
    list[i := list[|list| - 1]][..|list| - 1]
  }

  /** Removing one position takes exactly that entry out of the multiset of entries. */
  lemma RemovedAtMultiset(list: seq<Address>, i: nat)
    requires i < |list|
    ensures multiset(RemovedAt(list, i)) == multiset(list) - multiset{list[i]}
  {
    var n := |list| - 1;
    assert list == list[..n] + [list[n]];
    if i < n {
      assert RemovedAt(list, i) == list[..n][i := list[n]];
    } else {
      assert RemovedAt(list, i) == list[..n];
    }
  }

  /** Every entry of the result was an entry of the input, and entries with other addresses all survive. */
  lemma RemovedAtKeeps(list: seq<Address>, i: nat, x: Address)
    requires i < |list|
    ensures x in RemovedAt(list, i) ==> x in list
    ensures x in list && x.addr != list[i].addr ==> x in RemovedAt(list, i)
  {
    RemovedAtMultiset(list, i);
    if x in list && x.addr != list[i].addr {
      assert multiset(list)[x] > 0;
      assert x != list[i];
    }
  }

  /** Exist: true exactly when some entry has the probe's address; the weight is not compared. */
  method Exist(list: seq<Address>, addr: Address) returns (found: bool)
    ensures found <==> HasAddr(list, addr.addr)
  {
    for i := 0 to |list|
      invariant forall j :: 0 <= j < i ==> list[j].addr != addr.addr
    {
      if list[i].addr == addr.addr {
        return true;
      }
    }
    return false;
  }

  /**
   * Remove: the first entry with the probe's address is overwritten by the last
   * entry and the list is shortened by one; without a match the result is the
   * nil list and false.
   */
  method Remove(list: seq<Address>, addr: Address) returns (r: seq<Address>, ok: bool)
    ensures ok <==> HasAddr(list, addr.addr)
    ensures ok ==> r == RemovedAt(list, IndexOfAddr(list, addr.addr))
    ensures ok ==> multiset(r) == multiset(list) - multiset{list[IndexOfAddr(list, addr.addr)]}
    ensures !ok ==> r == []
  {
    for i := 0 to |list|
      invariant forall j :: 0 <= j < i ==> list[j].addr != addr.addr
    {
      if list[i].addr == addr.addr {
        assert IndexOfAddr(list, addr.addr) == i;
        RemovedAtMultiset(list, i);
        var written := list[i := list[|list| - 1]];
        return written[..|list| - 1], true;
      }
    }
    return [], false;
  }

  /** The event's payload decodes: the value of a Put, the key of a Delete. */
  predicate Decodes(e: Event, parseValue: Bytes -> Option<Server>, parseKey: string -> Option<Server>) {
    match e.typ
    case PUT => parseValue(e.kv.value).Some?
    case DELETE => parseKey(e.kv.key).Some?
  }

  predicate AllDecode(events: seq<Event>, parseValue: Bytes -> Option<Server>, parseKey: string -> Option<Server>) {
    forall i :: 0 <= i < |events| ==> Decodes(events[i], parseValue, parseKey)
  }

  /** One event applied to the list: the new list, and whether the list changed (and so was pushed). */
  function ApplyEvent(list: seq<Address>, e: Event,
                      parseValue: Bytes -> Option<Server>, parseKey: string -> Option<Server>): (r: (seq<Address>, bool))
    requires Decodes(e, parseValue, parseKey)
  {
    match e.typ
    case PUT =>
      var a := AddressOf(parseValue(e.kv.value).value);
      if HasAddr(list, a.addr) then (list, false) else (list + [a], true)
    case DELETE =>
      var i := IndexOfAddr(list, parseKey(e.kv.key).value.addr);
      if i < |list| then (RemovedAt(list, i), true) else (list, false)
  }

  /**
   * A batch folded over the list in arrival order: the list after the last event
   * and, in order, the list as it stood after each event that changed it.
   */
  function Fold(list: seq<Address>, events: seq<Event>,
                parseValue: Bytes -> Option<Server>, parseKey: string -> Option<Server>): (r: Outcome)
    requires AllDecode(events, parseValue, parseKey)
    decreases |events|
  {
    if events == [] then Outcome(list, [])
    else
      var n := |events| - 1;
      assert AllDecode(events[..n], parseValue, parseKey);
      var prev := Fold(list, events[..n], parseValue, parseKey);
      var (next, changed) := ApplyEvent(prev.list, events[n], parseValue, parseKey);
      Outcome(next, prev.pushes + (if changed then [next] else []))
  }

  /**
   * The body of update's loop for one event: a Put appends its address when no
   * entry has it; a Delete removes the entry with the key's address. `changed`
   * says whether the list was replaced (and so pushed).
   */
  method HandleEvent(list: seq<Address>, event: Event,
                     parseValue: Bytes -> Option<Server>, parseKey: string -> Option<Server>)
    returns (next: seq<Address>, changed: bool)
    requires Decodes(event, parseValue, parseKey)
    ensures (next, changed) == ApplyEvent(list, event, parseValue, parseKey)
  {
    next, changed := list, false;
    match event.typ
    case PUT =>
      var server := parseValue(event.kv.value).value;
      var addr := Address(server.addr, Some(server.weight));
      var present := Exist(list, addr);
      if !present {
        next, changed := list + [addr], true;
      }
    case DELETE =>
      var server := parseKey(event.kv.key).value;
      var addr := Address(server.addr, None);
      var remaining, ok := Remove(list, addr);
      if ok {
        next, changed := remaining, true;
      }
  }

  /**
   * update: the batch processed event by event on the receiver's copy of the
   * list; the list is pushed to the RPC client after every real change. The
   * final list is what that copy holds when the call returns.
   */
  method Update(srvAddrList: seq<Address>, events: seq<Event>,
                parseValue: Bytes -> Option<Server>, parseKey: string -> Option<Server>)
    returns (list: seq<Address>, pushes: seq<seq<Address>>)
    requires AllDecode(events, parseValue, parseKey)
    ensures Outcome(list, pushes) == Fold(srvAddrList, events, parseValue, parseKey)
  {
    list, pushes := srvAddrList, [];
    for k := 0 to |events|
      invariant AllDecode(events[..k], parseValue, parseKey)
      invariant Outcome(list, pushes) == Fold(srvAddrList, events[..k], parseValue, parseKey)
    {
      assert events[..k + 1][..k] == events[..k];
      assert AllDecode(events[..k + 1], parseValue, parseKey);
      var changed;
      list, changed := HandleEvent(list, events[k], parseValue, parseKey);
      if changed {
        pushes := pushes + [list];
      }
    }
    assert events[..|events|] == events;
  }

  /** Each step reports a change exactly when the list it leaves differs from the one it was given. */
  lemma ApplyEventChangedIff(list: seq<Address>, e: Event,
                             parseValue: Bytes -> Option<Server>, parseKey: string -> Option<Server>)
    requires Decodes(e, parseValue, parseKey)
    ensures ApplyEvent(list, e, parseValue, parseKey).1 <==> ApplyEvent(list, e, parseValue, parseKey).0 != list
  {
    var (next, changed) := ApplyEvent(list, e, parseValue, parseKey);
    if changed {
      assert |next| != |list|;
    }
  }

  /**
   * A Put whose address is absent appends one entry with the record's address and
   * weight and pushes once; a Put whose address is present changes nothing (the
   * old weight stays) and pushes nothing.
   */
  lemma PutEvent(list: seq<Address>, e: Event, s: Server,
                 parseValue: Bytes -> Option<Server>, parseKey: string -> Option<Server>)
    requires e.typ == PUT && parseValue(e.kv.value) == Some(s)
    ensures AllDecode([e], parseValue, parseKey)
    ensures !HasAddr(list, s.addr) ==> Fold(list, [e], parseValue, parseKey)
                                         == Outcome(list + [Address(s.addr, Some(s.weight))], [list + [Address(s.addr, Some(s.weight))]])
    ensures HasAddr(list, s.addr) ==> Fold(list, [e], parseValue, parseKey) == Outcome(list, [])
  {
    assert [e][..0] == [];
  }

  /**
   * A Delete whose key's address is present removes exactly the first entry with
   * that address, leaving every other entry, and pushes once; when the list had no
   * duplicate addresses the address is then gone. A Delete of an absent address
   * changes nothing and pushes nothing.
   */
  lemma DeleteEvent(list: seq<Address>, e: Event, s: Server,
                    parseValue: Bytes -> Option<Server>, parseKey: string -> Option<Server>)
    requires e.typ == DELETE && parseKey(e.kv.key) == Some(s)
    ensures AllDecode([e], parseValue, parseKey)
    ensures HasAddr(list, s.addr) ==>
              var r := Fold(list, [e], parseValue, parseKey);
              && |r.list| == |list| - 1
              && multiset(r.list) == multiset(list) - multiset{list[IndexOfAddr(list, s.addr)]}
              && r.pushes == [r.list]
              && (NoDupAddrs(list) ==> !HasAddr(r.list, s.addr))
    ensures !HasAddr(list, s.addr) ==> Fold(list, [e], parseValue, parseKey) == Outcome(list, [])
  {
    assert [e][..0] == [];
    var i := IndexOfAddr(list, s.addr);
    if i < |list| {
      RemovedAtMultiset(list, i);
      var r := RemovedAt(list, i);
      if NoDupAddrs(list) {
        forall j | 0 <= j < |r| ensures r[j].addr != s.addr {
          if j == i {
            assert r[j] == list[|list| - 1] && i < |list| - 1;
          } else {
            assert r[j] == list[j];
          }
        }
      }
    }
  }

  /** The list after each prefix of the batch: entry k is the list once the first k events are applied. */
  function ListsAfter(list: seq<Address>, events: seq<Event>,
                      parseValue: Bytes -> Option<Server>, parseKey: string -> Option<Server>): (r: seq<seq<Address>>)
    requires AllDecode(events, parseValue, parseKey)
    ensures |r| == |events| + 1
  {
    seq(|events| + 1, k requires 0 <= k <= |events| =>
      assert AllDecode(events[..k], parseValue, parseKey);
      Fold(list, events[..k], parseValue, parseKey).list)
  }

  /** The states of a sequence that differ from the state just before them, in order. */
  function Changes(states: seq<seq<Address>>): seq<seq<Address>>
  {
    if |states| < 2 then []
    else
      var n := |states| - 1;
      Changes(states[..n]) + (if states[n] != states[n - 1] then [states[n]] else [])
  }

  /**
   * The pushes of a batch are exactly the lists that differ from the list before
   * them, one per event that changed the list, each as it stood right after that
   * event; the final list is the one after the last event.
   */
  lemma {:induction false} FoldPushesAreChanges(list: seq<Address>, events: seq<Event>,
                                               parseValue: Bytes -> Option<Server>, parseKey: string -> Option<Server>)
    requires AllDecode(events, parseValue, parseKey)
    ensures Fold(list, events, parseValue, parseKey).pushes == Changes(ListsAfter(list, events, parseValue, parseKey))
    ensures Fold(list, events, parseValue, parseKey).list == ListsAfter(list, events, parseValue, parseKey)[|events|]
    decreases |events|
  {
    var states := ListsAfter(list, events, parseValue, parseKey);
    assert events[..|events|] == events;
    if events != [] {
      var n := |events| - 1;
      assert AllDecode(events[..n], parseValue, parseKey);
      FoldPushesAreChanges(list, events[..n], parseValue, parseKey);
      var prefixStates := ListsAfter(list, events[..n], parseValue, parseKey);
      assert states[..n + 1] == prefixStates by {
        forall k | 0 <= k <= n ensures states[k] == prefixStates[k] {
          assert events[..n][..k] == events[..k];
        }
      }
      var prev := Fold(list, events[..n], parseValue, parseKey);
      assert prev.list == states[n];
      ApplyEventChangedIff(prev.list, events[n], parseValue, parseKey);
    }
  }

  /** Put never adds a second entry for an address, and Remove keeps the others distinct: no duplicates appear. */
  lemma ApplyEventKeepsNoDup(list: seq<Address>, e: Event,
                             parseValue: Bytes -> Option<Server>, parseKey: string -> Option<Server>)
    requires Decodes(e, parseValue, parseKey) && NoDupAddrs(list)
    ensures NoDupAddrs(ApplyEvent(list, e, parseValue, parseKey).0)
  {
    if e.typ == DELETE {
      var i := IndexOfAddr(list, parseKey(e.kv.key).value.addr);
      if i < |list| {
        var r := RemovedAt(list, i);
        forall j, k | 0 <= j < k < |r| ensures r[j].addr != r[k].addr {
          var j' := if j == i then |list| - 1 else j;
          var k' := if k == i then |list| - 1 else k;
          assert r[j] == list[j'] && r[k] == list[k'] && j' != k';
        }
      }
    }
  }

  /** A list without duplicate addresses keeps that property through a batch, and so does every list pushed. */
  lemma {:induction false} FoldKeepsNoDup(list: seq<Address>, events: seq<Event>,
                                         parseValue: Bytes -> Option<Server>, parseKey: string -> Option<Server>)
    requires AllDecode(events, parseValue, parseKey) && NoDupAddrs(list)
    ensures NoDupAddrs(Fold(list, events, parseValue, parseKey).list)
    ensures forall p :: p in Fold(list, events, parseValue, parseKey).pushes ==> NoDupAddrs(p)
    decreases |events|
  {
    if events != [] {
      var n := |events| - 1;
      assert AllDecode(events[..n], parseValue, parseKey);
      FoldKeepsNoDup(list, events[..n], parseValue, parseKey);
      ApplyEventKeepsNoDup(Fold(list, events[..n], parseValue, parseKey).list, events[n], parseValue, parseKey);
    }
  }

  /** No Delete event of the batch names address `a`. */
  predicate NoDeleteOf(events: seq<Event>, a: string, parseKey: string -> Option<Server>) {
    forall i :: 0 <= i < |events| && events[i].typ == DELETE && parseKey(events[i].kv.key).Some?
                ==> parseKey(events[i].kv.key).value.addr != a
  }

  /**
   * An entry of the starting list whose address no Delete of the batch names is
   * still in the final list and in every list pushed.
   */
  lemma {:induction false} FoldKeepsUndeleted(list: seq<Address>, events: seq<Event>, x: Address,
                                             parseValue: Bytes -> Option<Server>, parseKey: string -> Option<Server>)
    requires AllDecode(events, parseValue, parseKey)
    requires x in list && NoDeleteOf(events, x.addr, parseKey)
    ensures x in Fold(list, events, parseValue, parseKey).list
    ensures forall p :: p in Fold(list, events, parseValue, parseKey).pushes ==> x in p
    decreases |events|
  {
    if events != [] {
      var n := |events| - 1;
      assert AllDecode(events[..n], parseValue, parseKey);
      assert NoDeleteOf(events[..n], x.addr, parseKey);
      FoldKeepsUndeleted(list, events[..n], x, parseValue, parseKey);
      var prev := Fold(list, events[..n], parseValue, parseKey).list;
      var e := events[n];
      if e.typ == DELETE {
        var i := IndexOfAddr(prev, parseKey(e.kv.key).value.addr);
        if i < |prev| {
          RemovedAtKeeps(prev, i, x);
        }
      }
    }
  }

  /** The entry a scanned value gives: its record's entry when it decodes, nothing otherwise. */
  function EntryOf(kv: KeyValue, parseValue: Bytes -> Option<Server>): seq<Address> {
    match parseValue(kv.value)
    case Some(s) => [AddressOf(s)]
    case None => []
  }

  /** The entries a scan gives: one per scanned value that decodes, in scan order. */
  function Scanned(kvs: seq<KeyValue>, parseValue: Bytes -> Option<Server>): (list: seq<Address>)
    ensures |list| <= |kvs|
  {
    if kvs == [] then []
    else
      var n := |kvs| - 1;
      Scanned(kvs[..n], parseValue) + EntryOf(kvs[n], parseValue)
  }

  /**
   * The list-building part of sync: start from an empty list and append the
   * entry of every scanned value that decodes; values that do not decode are
   * skipped, and equal addresses are not merged.
   */
  method Sync(kvs: seq<KeyValue>, parseValue: Bytes -> Option<Server>) returns (srvAddrList: seq<Address>)
    ensures srvAddrList == Scanned(kvs, parseValue)
  {
    srvAddrList := [];
    for k := 0 to |kvs|
      invariant srvAddrList == Scanned(kvs[..k], parseValue)
    {
      assert kvs[..k + 1][..k] == kvs[..k];
      var server := parseValue(kvs[k].value);
      if server.None? {
        continue;
      }
      srvAddrList := srvAddrList + [AddressOf(server.value)];
    }
    assert kvs[..|kvs|] == kvs;
  }

  /** Scanning two runs of values one after the other gives the two lists one after the other. */
  lemma {:induction false} ScannedConcat(kvs: seq<KeyValue>, more: seq<KeyValue>, parseValue: Bytes -> Option<Server>)
    ensures Scanned(kvs + more, parseValue) == Scanned(kvs, parseValue) + Scanned(more, parseValue)
    decreases |more|
  {
    if more == [] {
      assert kvs + more == kvs;
    } else {
      var all, n := kvs + more, |more| - 1;
      ScannedConcat(kvs, more[..n], parseValue);
      assert all[..|all| - 1] == kvs + more[..n] && all[|all| - 1] == more[n];
      var front, last := Scanned(kvs + more[..n], parseValue), EntryOf(more[n], parseValue);
      assert Scanned(all, parseValue) == front + last;
      assert Scanned(more, parseValue) == Scanned(more[..n], parseValue) + last;
      assert front + last == Scanned(kvs, parseValue) + (Scanned(more[..n], parseValue) + last);
    }
  }

  /** A single scanned value gives its entry when it decodes and nothing when it does not. */
  lemma ScannedOne(kv: KeyValue, parseValue: Bytes -> Option<Server>)
    ensures Scanned([kv], parseValue) == match parseValue(kv.value) case Some(s) => [AddressOf(s)] case None => []
  {
    assert [kv][..0] == [];
  }

  /**
   * When every scanned value decodes, the list has one entry per value, in scan
   * order, each carrying that record's address and weight; nothing is merged.
   */
  lemma {:induction false} ScannedWhenAllDecode(kvs: seq<KeyValue>, parseValue: Bytes -> Option<Server>)
    requires forall i :: 0 <= i < |kvs| ==> parseValue(kvs[i].value).Some?
    ensures |Scanned(kvs, parseValue)| == |kvs|
    ensures forall i :: 0 <= i < |kvs| ==> Scanned(kvs, parseValue)[i] == AddressOf(parseValue(kvs[i].value).value)
    decreases |kvs|
  {
    if kvs != [] {
      var n := |kvs| - 1;
      ScannedWhenAllDecode(kvs[..n], parseValue);
    }
  }

  /** Every entry of the scanned list comes from a scanned value that decodes. */
  lemma {:induction false} ScannedFromDecodedValues(kvs: seq<KeyValue>, parseValue: Bytes -> Option<Server>, x: Address)
    requires x in Scanned(kvs, parseValue)
    ensures exists i :: 0 <= i < |kvs| && parseValue(kvs[i].value).Some? && x == AddressOf(parseValue(kvs[i].value).value)
    decreases |kvs|
  {
    var n := |kvs| - 1;
    if x in Scanned(kvs[..n], parseValue) {
      ScannedFromDecodedValues(kvs[..n], parseValue, x);
      var i :| 0 <= i < n && parseValue(kvs[..n][i].value).Some? && x == AddressOf(parseValue(kvs[..n][i].value).value);
      assert kvs[..n][i] == kvs[i];
    } else {
      assert parseValue(kvs[n].value).Some? && x == AddressOf(parseValue(kvs[n].value).value);
    }
  }

  /** One step of the resolver's watch loop: a resync tick with its scan, or a batch of watch events. */
  datatype LoopInput = Tick(scan: seq<KeyValue>) | WatchBatch(events: seq<Event>)

  predicate InputsDecode(inputs: seq<LoopInput>, parseValue: Bytes -> Option<Server>, parseKey: string -> Option<Server>) {
    forall i :: 0 <= i < |inputs| && inputs[i].WatchBatch? ==> AllDecode(inputs[i].events, parseValue, parseKey)
  }

  /**
   * What the RPC client receives from the watch loop AS WRITTEN. Every method has
   * a value receiver, so sync fills only its own copy of the resolver and the
   * copy the loop runs on keeps the empty list NewResolver created: a tick pushes
   * its scan, and every batch is folded over that empty list.
   */
  function LoopPushesAsWritten(inputs: seq<LoopInput>,
                               parseValue: Bytes -> Option<Server>, parseKey: string -> Option<Server>): seq<seq<Address>>
    requires InputsDecode(inputs, parseValue, parseKey)
  {
    if inputs == [] then []
    else
      var n := |inputs| - 1;
      assert InputsDecode(inputs[..n], parseValue, parseKey);
      LoopPushesAsWritten(inputs[..n], parseValue, parseKey)
        + match inputs[n]
          case Tick(scan) => [Scanned(scan, parseValue)]
          case WatchBatch(events) => Fold([], events, parseValue, parseKey).pushes
  }

  /** Build's initial sync followed by the watch loop, as written. */
  function PushesAsWritten(scan: seq<KeyValue>, inputs: seq<LoopInput>,
                           parseValue: Bytes -> Option<Server>, parseKey: string -> Option<Server>): seq<seq<Address>>
    requires InputsDecode(inputs, parseValue, parseKey)
  {
    [Scanned(scan, parseValue)] + LoopPushesAsWritten(inputs, parseValue, parseKey)
  }

  /**
   * The watch loop with the list kept from step to step: a tick replaces the list
   * by its scan and pushes it, a batch is folded over the current list.
   */
  function Run(list: seq<Address>, inputs: seq<LoopInput>,
               parseValue: Bytes -> Option<Server>, parseKey: string -> Option<Server>): Outcome
    requires InputsDecode(inputs, parseValue, parseKey)
  {
    if inputs == [] then Outcome(list, [])
    else
      var n := |inputs| - 1;
      assert InputsDecode(inputs[..n], parseValue, parseKey);
      var prev := Run(list, inputs[..n], parseValue, parseKey);
      match inputs[n]
      case Tick(scan) =>
        var scanned := Scanned(scan, parseValue);
        Outcome(scanned, prev.pushes + [scanned])
      case WatchBatch(events) =>
        var step := Fold(prev.list, events, parseValue, parseKey);
        Outcome(step.list, prev.pushes + step.pushes)
  }

  /**
   * With value receivers, a scanned address is lost from the client's view at the
   * first Put of another address; with the list kept, the Put pushes both addresses.
   */
  lemma ValueReceiversLoseScannedAddressOnPut(kA: string, vA: Bytes, a: Server, kB: string, vB: Bytes, b: Server,
                                              parseValue: Bytes -> Option<Server>, parseKey: string -> Option<Server>)
    requires parseValue(vA) == Some(a) && parseValue(vB) == Some(b) && a.addr != b.addr
    ensures var scan, inputs := [KeyValue(kA, vA)], [WatchBatch([Event(PUT, KeyValue(kB, vB))])];
            && InputsDecode(inputs, parseValue, parseKey)
            && PushesAsWritten(scan, inputs, parseValue, parseKey) == [[AddressOf(a)], [AddressOf(b)]]
            && Run(Scanned(scan, parseValue), inputs, parseValue, parseKey).pushes == [[AddressOf(a), AddressOf(b)]]
  {
    var scan, put := [KeyValue(kA, vA)], Event(PUT, KeyValue(kB, vB));
    var inputs := [WatchBatch([put])];
    ScannedOne(KeyValue(kA, vA), parseValue);
    assert !HasAddr([], b.addr) && !HasAddr([AddressOf(a)], b.addr);
    PutEvent([], put, b, parseValue, parseKey);
    PutEvent([AddressOf(a)], put, b, parseValue, parseKey);
    assert inputs[..0] == [] && inputs[0] == WatchBatch([put]);
    assert Fold([], [put], parseValue, parseKey) == Outcome([] + [Address(b.addr, Some(b.weight))], [[] + [Address(b.addr, Some(b.weight))]]);
    assert [] + [Address(b.addr, Some(b.weight))] == [AddressOf(b)];
    assert Fold([], [put], parseValue, parseKey).pushes == [[AddressOf(b)]];
    assert LoopPushesAsWritten(inputs, parseValue, parseKey) == [] + [[AddressOf(b)]];
    assert Run([AddressOf(a)], inputs[..0], parseValue, parseKey) == Outcome([AddressOf(a)], []);
    assert [AddressOf(a)] + [Address(b.addr, Some(b.weight))] == [AddressOf(a), AddressOf(b)];
    assert Fold([AddressOf(a)], [put], parseValue, parseKey).pushes == [[AddressOf(a), AddressOf(b)]];
  }

  /**
   * With value receivers, the Delete of a scanned address is never pushed, so the
   * client keeps dialling it until the next tick; with the list kept, the emptied
   * list is pushed.
   */
  lemma ValueReceiversMissDeleteOfScannedAddress(kA: string, vA: Bytes, a: Server,
                                                 parseValue: Bytes -> Option<Server>, parseKey: string -> Option<Server>)
    requires parseValue(vA) == Some(a) && parseKey(kA) == Some(a)
    ensures var scan, inputs := [KeyValue(kA, vA)], [WatchBatch([Event(DELETE, KeyValue(kA, []))])];
            && InputsDecode(inputs, parseValue, parseKey)
            && PushesAsWritten(scan, inputs, parseValue, parseKey) == [[AddressOf(a)]]
            && Run(Scanned(scan, parseValue), inputs, parseValue, parseKey).pushes == [[]]
  {
    var scan, del := [KeyValue(kA, vA)], Event(DELETE, KeyValue(kA, []));
    var inputs := [WatchBatch([del])];
    ScannedOne(KeyValue(kA, vA), parseValue);
    assert HasAddr([AddressOf(a)], a.addr);
    DeleteEvent([], del, a, parseValue, parseKey);
    DeleteEvent([AddressOf(a)], del, a, parseValue, parseKey);
    assert inputs[..0] == [];
    assert LoopPushesAsWritten(inputs, parseValue, parseKey) == [];
    assert Run([AddressOf(a)], inputs, parseValue, parseKey).pushes == [[]];
  }

  /**
   * A registry holding two records with different addresses (for instance
   * "/user/10.0.0.1:9000" with weight 1 and "/user/v2/10.0.0.2:9000" with
   * weight 2), scanned in that order, then a batch with a Delete of the first key,
   * decoded by `DecodeKey`. The scan lists both. With the list kept between calls
   * the Delete leaves only the second address and pushes it once; as written the
   * Delete meets the empty list and pushes nothing, so the client keeps both.
   */
  lemma ScanThenDeleteScenario(s1: Server, v1: Bytes, s2: Server, v2: Bytes, parseValue: Bytes -> Option<Server>)
    requires WellFormed(s1) && s1.addr != s2.addr
    requires parseValue(v1) == Some(s1) && parseValue(v2) == Some(s2)
    ensures var k1 := BuildRegisterKey(s1);
            var scan := [KeyValue(k1, v1), KeyValue(BuildRegisterKey(s2), v2)];
            var inputs := [WatchBatch([Event(DELETE, KeyValue(k1, []))])];
            && Scanned(scan, parseValue) == [AddressOf(s1), AddressOf(s2)]
            && InputsDecode(inputs, parseValue, DecodeKey)
            && Run(Scanned(scan, parseValue), inputs, parseValue, DecodeKey) == Outcome([AddressOf(s2)], [[AddressOf(s2)]])
            && PushesAsWritten(scan, inputs, parseValue, DecodeKey) == [[AddressOf(s1), AddressOf(s2)]]
  {
    var k1 := BuildRegisterKey(s1);
    var scan := [KeyValue(k1, v1), KeyValue(BuildRegisterKey(s2), v2)];
    var list := Scanned(scan, parseValue);
    assert list == [AddressOf(s1), AddressOf(s2)] by {
      ScannedWhenAllDecode(scan, parseValue);
    }
    var del := Event(DELETE, KeyValue(k1, []));
    assert Decodes(del, parseValue, DecodeKey) && DecodeKey(k1) == Some(s1.(weight := 0, ttl := 0)) by {
      KeyRoundTrip(s1);
    }
    var remaining := [AddressOf(s2)];
    assert Fold(list, [del], parseValue, DecodeKey) == Outcome(remaining, [remaining]) by {
      assert ApplyEvent(list, del, parseValue, DecodeKey) == (remaining, true) by {
        assert IndexOfAddr(list, s1.addr) == 0;
        assert RemovedAt(list, 0) == remaining;
      }
      assert [del][..0] == [];
    }
    assert Fold([], [del], parseValue, DecodeKey) == Outcome([], []) by {
      assert ApplyEvent([], del, parseValue, DecodeKey) == ([], false);
      assert [del][..0] == [];
    }
    RunOneBatch(list, [del], parseValue, DecodeKey);
  }

  /** A run of one batch folds it over the given list; as written, it is folded over the empty list. */
  lemma RunOneBatch(list: seq<Address>, events: seq<Event>,
                    parseValue: Bytes -> Option<Server>, parseKey: string -> Option<Server>)
    requires AllDecode(events, parseValue, parseKey)
    ensures InputsDecode([WatchBatch(events)], parseValue, parseKey)
    ensures Run(list, [WatchBatch(events)], parseValue, parseKey) == Fold(list, events, parseValue, parseKey)
    ensures LoopPushesAsWritten([WatchBatch(events)], parseValue, parseKey) == Fold([], events, parseValue, parseKey).pushes
  {
    var inputs := [WatchBatch(events)];
    assert inputs[..0] == [];
    assert Run(list, inputs[..0], parseValue, parseKey) == Outcome(list, []);
    assert [] + Fold(list, events, parseValue, parseKey).pushes == Fold(list, events, parseValue, parseKey).pushes;
    assert [] + Fold([], events, parseValue, parseKey).pushes == Fold([], events, parseValue, parseKey).pushes;
  }

  /**
   * The resolver with the list kept between calls (pointer receivers): the list
   * the loop works on is the one the last sync or update left, and `pushed` holds,
   * in order, every list handed to the RPC client.
   */
  class Resolver {
    var srvAddrList: seq<Address>
    var pushed: seq<seq<Address>>

    /** Build: the initial scan becomes the list and is pushed. */
    constructor Build(scan: seq<KeyValue>, parseValue: Bytes -> Option<Server>)
      ensures srvAddrList == Scanned(scan, parseValue) && pushed == [srvAddrList]
    {
      var list := Sync(scan, parseValue);
      srvAddrList, pushed := list, [list];
    }

    /** A resync tick: the scan replaces the list and is pushed. */
    method Resync(scan: seq<KeyValue>, parseValue: Bytes -> Option<Server>)
      modifies this
      ensures srvAddrList == Scanned(scan, parseValue) && pushed == old(pushed) + [srvAddrList]
    {
      var list := Sync(scan, parseValue);
      srvAddrList, pushed := list, pushed + [list];
    }

    /** A watch batch folded over the kept list, its pushes added to the client's. */
    method Apply(events: seq<Event>, parseValue: Bytes -> Option<Server>, parseKey: string -> Option<Server>)
      requires AllDecode(events, parseValue, parseKey)
      modifies this
      ensures var r := Fold(old(srvAddrList), events, parseValue, parseKey);
              srvAddrList == r.list && pushed == old(pushed) + r.pushes
    {
      var list, pushes := Update(srvAddrList, events, parseValue, parseKey);
      srvAddrList, pushed := list, pushed + pushes;
    }

    /** The watch loop over a finite run of its inputs, in order. */
    method Watch(inputs: seq<LoopInput>, parseValue: Bytes -> Option<Server>, parseKey: string -> Option<Server>)
      requires InputsDecode(inputs, parseValue, parseKey)
      modifies this
      ensures var r := Run(old(srvAddrList), inputs, parseValue, parseKey);
              srvAddrList == r.list && pushed == old(pushed) + r.pushes
    {
      ghost var start, before := srvAddrList, pushed;
      for k := 0 to |inputs|
        invariant InputsDecode(inputs[..k], parseValue, parseKey)
        invariant var r := Run(start, inputs[..k], parseValue, parseKey);
                  srvAddrList == r.list && pushed == before + r.pushes
      {
        assert inputs[..k + 1][..k] == inputs[..k];
        assert InputsDecode(inputs[..k + 1], parseValue, parseKey);
        match inputs[k]
        case Tick(scan) =>
          Resync(scan, parseValue);
        case WatchBatch(events) =>
          Apply(events, parseValue, parseKey);
      }
      assert inputs[..|inputs|] == inputs;
    }
  }

  /** The key the resolver scans and watches AS WRITTEN: the target path "/" + service, with no trailing '/'. */
  function ScanPrefixAsWritten(service: string): string {
    "/" + service
  }

  /** The prefix that selects exactly one service's keys. */
  function ScanPrefix(service: string): string {
    "/" + service + "/"
  }

  /** A key is returned by a prefix scan (and reported by a prefix watch) when the prefix starts it. */
  predicate InScan(prefix: string, key: string) {
    prefix <= key
  }

  /** As written, the scan for service "user" also returns the keys of service "username". */
  lemma ScanPrefixAsWrittenMatchesOtherService()
    ensures var other := Server("username", "10.0.0.3:9000", "", 1, 10);
            other.name != "user" && InScan(ScanPrefixAsWritten("user"), BuildRegisterKey(other))
  {
    var other := Server("username", "10.0.0.3:9000", "", 1, 10);
    assert BuildRegisterKey(other) == ScanPrefixAsWritten("user") + "name/10.0.0.3:9000";
  }

  /** With the trailing '/', a well-formed record's key is in the scan exactly when it belongs to that service. */
  lemma ScanPrefixSelectsService(service: string, s: Server)
    requires service != "" && SlashFree(service) && WellFormed(s)
    ensures InScan(ScanPrefix(service), BuildRegisterKey(s)) <==> s.name == service
  {
    var key := BuildRegisterKey(s);
    var prefix := ScanPrefix(service);
    var rest := if s.version == "" then s.addr else s.version + "/" + s.addr;
    assert key == "/" + s.name + "/" + rest;
    if s.name == service {
      assert key == prefix + rest;
    }
    if s.name != service {
      // an index at which the prefix and the key differ
      var j: nat;
      if |service| < |s.name| {
        j := |service| + 1;
        assert key[j] == s.name[|service|];
      } else if |s.name| < |service| {
        j := |s.name| + 1;
        assert key[j] == '/' && prefix[j] == service[|s.name|];
      } else {
        assert exists i :: 0 <= i < |service| && service[i] != s.name[i];
        var i :| 0 <= i < |service| && service[i] != s.name[i];
        j := i + 1;
        assert prefix[j] == service[i] && key[j] == s.name[i];
      }
      assert j < |prefix| && j < |key| && prefix[j] != key[j];
    }
  }
}
