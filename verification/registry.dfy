/** The table that records who owns which relay username (packages/relay/src/registry.ts). */
module Registry {
  import opened Wrappers
  import opened Usernames

  datatype Row = Row(installId: string, registeredAt: string, lastSeenAt: string)

  type Table = map<string, Row>

  /** SQLite's default order on text, over the ASCII strings the table holds. */
  predicate TextLess(a: string, b: string) {
    if a == [] then b != []
    else b != [] && (a[0] < b[0] || (a[0] == b[0] && TextLess(a[1..], b[1..])))
  }

  predicate MayRegister(t: Table, name: string, installId: string) {
    IsValidRelayUsername(name) && (name in t ==> t[name].installId == installId)
  }

  function RegisterRow(t: Table, name: string, installId: string, now: string): (Table, bool) {
    if !IsValidRelayUsername(name) then (t, false)
    else if name in t then
      if t[name].installId != installId then (t, false)
      else (t[name := t[name].(lastSeenAt := now)], true)
    else (t[name := Row(installId, now, now)], true)
  }

  function Touch(t: Table, name: string, now: string): Table {
    if name in t then t[name := t[name].(lastSeenAt := now)] else t
  }

  function Reclaim(t: Table, cutoff: string): Table {
    map name | name in t && !TextLess(t[name].lastSeenAt, cutoff) :: t[name]
  }

  /** The persistent table, changed in place by every call. */
  class UsernameRegistry {
    var rows: Table

    constructor (rows: Table)
      ensures this.rows == rows
    {
      this.rows := rows;
    }

    method CanRegister(name: string, installId: string) returns (ok: bool)
      ensures ok == MayRegister(rows, name, installId)
    {
      if !IsValidRelayUsername(name) {
        return false;
      }
      if name !in rows {
        return true;
      }
      return rows[name].installId == installId;
    }

    method Register(name: string, installId: string, now: string) returns (ok: bool)
      modifies this
      ensures ok == old(MayRegister(rows, name, installId))
      ensures (rows, ok) == RegisterRow(old(rows), name, installId, now)
    {
      if !IsValidRelayUsername(name) {
        return false;
      }
      if name in rows {
        if rows[name].installId != installId {
          return false;
        }
        rows := rows[name := rows[name].(lastSeenAt := now)];
        return true;
      }
      rows := rows[name := Row(installId, now, now)];
      return true;
    }

    method UpdateLastSeen(name: string, now: string)
      modifies this
      ensures rows == Touch(old(rows), name, now)
    {
      if name in rows {
        rows := rows[name := rows[name].(lastSeenAt := now)];
      }
    }

    method IsRegistered(name: string) returns (ok: bool)
      ensures ok == (name in rows)
    {
      ok := name in rows;
    }

    method ReclaimInactive(cutoff: string) returns (changes: nat)
      modifies this
      ensures rows == Reclaim(old(rows), cutoff)
      ensures changes == |old(rows)| - |rows|
    {
      var kept := Reclaim(rows, cutoff);
      assert kept.Keys <= rows.Keys;
      assert |rows.Keys - kept.Keys| == |rows.Keys| - |kept.Keys|;
      changes := |rows.Keys - kept.Keys|;
      rows := kept;
    }

    method Delete(name: string) returns (found: bool)
      modifies this
      ensures found == (name in old(rows))
      ensures rows == old(rows) - {name}
    {
      found := name in rows;
      rows := rows - {name};
    }
  }
}
