/** The catalogue of known machines kept between runs (`LocalStorage`):
    merge-or-append, lookups by id and by address, and the last-used
    machine. Loading and saving the YAML file are not modelled. */
module Storage {
  import opened Wrappers
  import opened Machines

  /** The field a lookup compares. */
  datatype Key = ById | ByIp

  function KeyOf(m: Machine, key: Key): string
  {
    match key
    case ById => m.id
    case ByIp => m.ip
  }

  /** A lookup matches an entry whose field is non-empty and equal to `v`. */
  predicate Matches(m: Machine, key: Key, v: string)
  {
    KeyOf(m, key) != "" && KeyOf(m, key) == v
  }

  /** The position of the first entry matching `v`, if any. */
  function FirstWith(ms: seq<Machine>, key: Key, v: string): (r: Option<nat>)
    ensures r.Some? ==> r.value < |ms| && Matches(ms[r.value], key, v)
    ensures r.Some? ==> forall j | 0 <= j < r.value :: !Matches(ms[j], key, v)
    ensures r.None? ==> forall j | 0 <= j < |ms| :: !Matches(ms[j], key, v)
    decreases |ms|
  {
    if |ms| == 0 then None
    else if Matches(ms[0], key, v) then Some(0)
    else
      match FirstWith(ms[1..], key, v)
      case None => None
      case Some(i) => Some(i + 1)
  }

  /** The first entry matching `v`, if any. */
  function Found(ms: seq<Machine>, key: Key, v: string): Option<Machine>
  {
    match FirstWith(ms, key, v)
    case None => None
    case Some(i) => Some(ms[i])
  }

  /** The known entry after `m` was seen again: its address is `m`'s, its
      token is replaced only by a non-empty one. */
  function Refreshed(x: Machine, m: Machine): Machine
  {
    x.(ip := m.ip, token := if m.token != "" then m.token else x.token)
  }

  /** The list after `Add(m)`: the first entry with `m`'s (non-empty) id is
      refreshed, otherwise `m` is appended. */
  function Added(ms: seq<Machine>, m: Machine): (r: seq<Machine>)
    ensures |r| == |ms| || r == ms + [m]
    ensures forall j | 0 <= j < |ms| :: r[j].id == ms[j].id
  {
    match FirstWith(ms, ById, m.id)
    case None => ms + [m]
    case Some(i) => ms[i := Refreshed(ms[i], m)]
  }

  /** A machine with an empty id, or an id not yet known, is appended. */
  lemma AddAppendsNew(ms: seq<Machine>, m: Machine)
    requires m.id == "" || forall j | 0 <= j < |ms| :: ms[j].id != m.id
    ensures Added(ms, m) == ms + [m]
  {
  }

  /** A machine whose id is known refreshes the first entry with that id and
      leaves every other entry as it was. */
  lemma AddRefreshesFirstMatch(ms: seq<Machine>, m: Machine, i: nat)
    requires i < |ms| && m.id != "" && ms[i].id == m.id
    requires forall j | 0 <= j < i :: ms[j].id != m.id
    ensures |Added(ms, m)| == |ms|
    ensures Added(ms, m)[i] == ms[i].(ip := m.ip, token := if m.token != "" then m.token else ms[i].token)
    ensures forall j | 0 <= j < |ms| && j != i :: Added(ms, m)[j] == ms[j]
  {
    var r := FirstWith(ms, ById, m.id);
    assert Matches(ms[i], ById, m.id);
    assert r.Some? && r.value == i;
  }

  /** After `SetLast(m)` with a non-empty id, looking the id up finds an
      entry with that id and `m`'s address (and `m`'s token when it has
      one). */
  lemma {:induction false} LastIsFound(ms: seq<Machine>, m: Machine)
    requires m.id != ""
    ensures var r := Found(Added(ms, m), ById, m.id);
            && r.Some?
            && r.value.id == m.id && r.value.ip == m.ip
            && (m.token != "" ==> r.value.token == m.token)
  {
    var after := Added(ms, m);
    match FirstWith(ms, ById, m.id)
    case None =>
      assert after == ms + [m];
      assert Matches(after[|ms|], ById, m.id);
      assert forall j | 0 <= j < |ms| :: !Matches(after[j], ById, m.id) by {
        forall j | 0 <= j < |ms| ensures !Matches(after[j], ById, m.id) {
          assert after[j] == ms[j];
        }
      }
      assert FirstWith(after, ById, m.id) == Some(|ms|);
    case Some(i) =>
      assert Matches(after[i], ById, m.id);
      assert forall j | 0 <= j < i :: !Matches(after[j], ById, m.id) by {
        forall j | 0 <= j < i ensures !Matches(after[j], ById, m.id) {
          assert after[j] == ms[j];
        }
      }
      assert FirstWith(after, ById, m.id) == Some(i);
  }

  class LocalStorage {
    var lastId: string
    var machines: seq<Machine>

    /** `NewLocalStorage` when no file could be read. */
    constructor ()
      ensures lastId == "" && machines == []
    {
      lastId := "";
      machines := [];
    }

    /** `LocalStorage.Add`: refresh the known entry or append. */
    method Add(m: Machine)
      modifies this
      ensures machines == Added(old(machines), m)
      ensures lastId == old(lastId)
    {
      var found := false;
      if m.id != "" {
        var idx := 0;
        while idx < |machines|
          invariant 0 <= idx <= |machines|
          invariant machines == old(machines)
          invariant forall j | 0 <= j < idx :: !Matches(machines[j], ById, m.id)
        {
          var x := machines[idx];
          if x.id == m.id {
            assert FirstWith(machines, ById, m.id) == Some(idx);
            found := true;
            if x.ip != m.ip {
              machines := machines[idx := machines[idx].(ip := m.ip)];
            }
            if m.token != "" && x.token != m.token {
              machines := machines[idx := machines[idx].(token := m.token)];
            }
            break;
          }
          idx := idx + 1;
        }
      }
      if !found {
        machines := machines + [m];
      }
    }

    /** The linear search shared by `FindByID` and `FindByIP`. */
    method Find(key: Key, v: string) returns (r: Option<Machine>)
      ensures r == Found(machines, key, v)
    {
      var i := 0;
      while i < |machines|
        invariant 0 <= i <= |machines|
        invariant forall j | 0 <= j < i :: !Matches(machines[j], key, v)
      {
        var m := machines[i];
        if KeyOf(m, key) != "" && KeyOf(m, key) == v {
          assert FirstWith(machines, key, v) == Some(i);
          return Some(m);
        }
        i := i + 1;
      }
      return None;
    }

    /** `FindByID`: the first entry with this non-empty id. */
    method FindById(id: string) returns (r: Option<Machine>)
      ensures r.Some? <==> id != "" && exists j | 0 <= j < |machines| :: machines[j].id == id
      ensures r.Some? ==> r.value.id == id && r == Found(machines, ById, id)
    {
      r := Find(ById, id);
    }

    /** `FindByIP`: the first entry with this non-empty address. */
    method FindByIp(ip: string) returns (r: Option<Machine>)
      ensures r.Some? <==> ip != "" && exists j | 0 <= j < |machines| :: machines[j].ip == ip
      ensures r.Some? ==> r.value.ip == ip && r == Found(machines, ByIp, ip)
    {
      r := Find(ByIp, ip);
    }

    /** `SetLast`: remember `m` and make it the last-used machine. */
    method SetLast(m: Machine)
      modifies this
      ensures machines == Added(old(machines), m)
      ensures lastId == m.id
    {
      Add(m);
      lastId := m.id;
    }

    /** `GetLast`: the entry with the last-used id, if there is one. */
    method GetLast() returns (r: Option<Machine>)
      ensures lastId == "" ==> r.None?
      ensures lastId != "" ==> r == Found(machines, ById, lastId)
    {
      if lastId != "" {
        r := FindById(lastId);
      } else {
        r := None;
      }
    }
  }
}
