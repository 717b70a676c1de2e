/**
 * Finding the Roku (server/server.js:13-24): the shared field
 * `rokuConfig.address`, the SSDP response listener that overwrites it, and
 * searchForRoku, which sends an M-SEARCH only while no address is known.
 */
module Discovery {

  /**
   * A JavaScript value held in `rokuConfig.address` or in a response's
   * `LOCATION` header: missing, null, or a URL string.
   */
  datatype Address = Undefined | Null | Location(url: string)

  /** `address == null`: loose equality holds for undefined as well as null. */
  predicate Unknown(a: Address) {
    a.Undefined? || a.Null?
  }

  /** The string `address + "..."` starts with: JavaScript renders a missing value by name. */
  function Text(a: Address): (t: string)
    ensures a.Location? ==> t == a.url
  {
    match a
    case Undefined => "undefined"
    case Null => "null"
    case Location(url) => url
  }

  /** The service type searched for. */
  const SearchTarget: string := "roku:ecp"

  /** The two things that touch the address: the periodic search and an SSDP response. */
  datatype Event = Tick | Response(location: Address)

  /** The address and the searches sent so far. */
  datatype State = State(address: Address, searches: seq<string>)

  /** The effect of one event, as the listener and searchForRoku have it. */
  function Apply(s: State, e: Event): (r: State)
    ensures r.address != s.address ==> e.Response?
    ensures |s.searches| <= |r.searches| <= |s.searches| + 1 && r.searches[..|s.searches|] == s.searches
    ensures |r.searches| > |s.searches| <==> e.Tick? && Unknown(s.address)
  {
    match e
    case Tick => if Unknown(s.address) then State(s.address, s.searches + [SearchTarget]) else s
    case Response(location) => State(location, s.searches)
  }

  /** The state after a series of events, in the order they occurred. */
  function Replay(s: State, events: seq<Event>): (r: State)
    ensures |s.searches| <= |r.searches| <= |s.searches| + |events|
    decreases |events|
  {
    if events == [] then s
    else Apply(Replay(s, events[..|events| - 1]), events[|events| - 1])
  }

  /** No event after index `k` is a response. */
  predicate NoResponseAfter(events: seq<Event>, k: int) {
    forall j :: 0 <= j < |events| && k < j ==> events[j].Tick?
  }

  /** Searches only ever accumulate: no event takes one back. */
  lemma {:induction false} SearchesGrow(s: State, events: seq<Event>)
    ensures |Replay(s, events).searches| >= |s.searches|
    ensures Replay(s, events).searches[..|s.searches|] == s.searches
    decreases |events|
  {
    if events != [] {
      SearchesGrow(s, events[..|events| - 1]);
      var mid := Replay(s, events[..|events| - 1]);
      var last := Replay(s, events);
      assert last.searches[..|mid.searches|] == mid.searches;
      assert last.searches[..|s.searches|] == mid.searches[..|s.searches|];
    }
  }

  /** The last response wins: whatever it carried is the address, whatever came before. */
  lemma {:induction false} LastResponseWins(s: State, events: seq<Event>, k: nat)
    requires k < |events| && events[k].Response? && NoResponseAfter(events, k)
    ensures Replay(s, events).address == events[k].location
    decreases |events|
  {
    if k < |events| - 1 {
      var init := events[..|events| - 1];
      assert init[k] == events[k];
      assert NoResponseAfter(init, k) by {
        forall j | 0 <= j < |init| && k < j ensures init[j].Tick? {
          assert init[j] == events[j];
        }
      }
      LastResponseWins(s, init, k);
    }
  }

  /** Without responses the address never changes. */
  lemma {:induction false} TicksKeepAddress(s: State, events: seq<Event>)
    requires NoResponseAfter(events, -1)
    ensures Replay(s, events).address == s.address
    decreases |events|
  {
    if events != [] {
      var init := events[..|events| - 1];
      assert NoResponseAfter(init, -1) by {
        forall j | 0 <= j < |init| ensures init[j].Tick? {
          assert init[j] == events[j];
        }
      }
      TicksKeepAddress(s, init);
    }
  }

  /**
   * While only ticks happen, every tick searches if the address is unknown,
   * and none does if it is known: discovery is need-based, not a refresh.
   */
  lemma {:induction false} TicksSearchOnlyWhileUnknown(s: State, events: seq<Event>)
    requires NoResponseAfter(events, -1)
    ensures Unknown(s.address) ==>
              Replay(s, events).searches == s.searches + seq(|events|, _ => SearchTarget)
    ensures !Unknown(s.address) ==> Replay(s, events).searches == s.searches
    decreases |events|
  {
    if events != [] {
      var init := events[..|events| - 1];
      assert NoResponseAfter(init, -1) by {
        forall j | 0 <= j < |init| ensures init[j].Tick? {
          assert init[j] == events[j];
        }
      }
      TicksSearchOnlyWhileUnknown(s, init);
      TicksKeepAddress(s, init);
      assert events[|events| - 1].Tick?;
      if Unknown(s.address) {
        assert seq(|init|, _ => SearchTarget) + [SearchTarget] == seq(|events|, _ => SearchTarget);
      }
    }
  }

  /**
   * Once a response has brought a location, later ticks send nothing more,
   * until a response without a location (a missing LOCATION header) clears it.
   */
  lemma FoundStopsSearching(s: State, events: seq<Event>, k: nat)
    requires k < |events| && events[k].Response? && events[k].location.Location?
    requires NoResponseAfter(events, k)
    ensures Replay(s, events).address == events[k].location
    ensures Replay(s, events).searches == Replay(s, events[..k + 1]).searches
  {
    LastResponseWins(s, events, k);
    var head := events[..k + 1];
    var tail := events[k + 1..];
    assert events == head + tail;
    ReplayAppend(s, head, tail);
    LastResponseWins(s, head, k);
    assert NoResponseAfter(tail, -1) by {
      forall j | 0 <= j < |tail| ensures tail[j].Tick? {
        assert tail[j] == events[k + 1 + j];
      }
    }
    TicksSearchOnlyWhileUnknown(Replay(s, head), tail);
  }

  /** Replaying two runs of events one after the other is replaying them together. */
  lemma {:induction false} ReplayAppend(s: State, a: seq<Event>, b: seq<Event>)
    ensures Replay(s, a + b) == Replay(Replay(s, a), b)
    decreases |b|
  {
    if b == [] {
      assert a + b == a;
    } else {
      var b' := b[..|b| - 1];
      assert (a + b)[..|a + b| - 1] == a + b';
      assert (a + b)[|a + b| - 1] == b[|b| - 1];
      ReplayAppend(s, a, b');
    }
  }

  /** `rokuConfig`, as far as discovery is concerned, with the searches it has sent. */
  class RokuConfig {
    var address: Address
    /** The service types passed to `ssdp.search`, oldest first. */
    var searches: seq<string>

    /** The state as a value, to compare with Replay. */
    function Snapshot(): State
      reads this
    {
      State(address, searches)
    }

    /** The configuration as loaded: whatever `address` the file held (usually none). */
    constructor (address: Address)
      ensures this.address == address && searches == []
    {
      this.address := address;
      searches := [];
    }

    /** The `ssdp.on('response')` listener: overwrite the address with the LOCATION header. */
    method OnResponse(location: Address)
      modifies this
      ensures address == location && searches == old(searches)
      ensures Snapshot() == Apply(old(Snapshot()), Response(location))
    {
      address := location;
    }

    /** searchForRoku: search only while the address is null or undefined, else change nothing. */
    method SearchForRoku()
      modifies this
      ensures address == old(address)
      ensures searches == old(searches) + (if Unknown(old(address)) then [SearchTarget] else [])
      ensures Snapshot() == Apply(old(Snapshot()), Tick)
    {
      if address == Undefined || address == Null {
        searches := searches + [SearchTarget];
      }
    }
  }
}
