/** The detail cache tables: keyed rows that are upserted one at a time and pruned
    at the end of a cycle. */
module CacheTable {
  import opened Util

  /** The cache key: an endpoint address or a device id. */
  datatype Key = Key(text: string)

  /** `signature` identifies the session a posture detail belongs to. */
  datatype Row = Row(signature: string, updatedAt: real, lastSeen: real)

  type Rows = map<Key, Row>

  function Put(rows: Rows, key: Key, signature: string, now: real): Rows {
    rows[key := Row(signature, now, now)]
  }

  function Seen(rows: Rows, key: Key, now: real): Row {
    if key in rows then rows[key].(lastSeen := now) else Row("", now, now)
  }

  /** Active rows are marked seen. */
  function Marked(rows: Rows, active: set<Key>, now: real): Rows {
    rows + map key | key in rows.Keys * active :: Seen(rows, key, now)
  }

  /** Others survive only while within the grace. */
  function Survivors(rows: Rows, active: set<Key>, now: real, grace: real): set<Key> {
    set key | key in rows && (key in active || (grace > 0.0 && rows[key].lastSeen >= now - grace))
  }

  function Finish(rows: Rows, active: set<Key>, now: real, grace: real): Rows {
    Keep(Marked(rows, active, now), Survivors(rows, active, now, grace))
  }

  lemma FinishRow(rows: Rows, active: set<Key>, now: real, grace: real, key: Key)
    ensures key in Finish(rows, active, now, grace) <==>
            key in rows && (key in active || (grace > 0.0 && rows[key].lastSeen >= now - grace))
    ensures key in Finish(rows, active, now, grace) ==>
              Finish(rows, active, now, grace)[key] == if key in active then rows[key].(lastSeen := now) else rows[key]
  {
  }

  class Table {
    var rows: Rows

    constructor ()
      ensures rows == map[]
    {
      rows := map[];
    }

    method PutRow(key: Key, signature: string, now: real)
      modifies this
      ensures rows == Put(old(rows), key, signature, now)
      ensures rows == old(rows)[key := rows[key]] && rows[key].signature == signature
      ensures rows[key].updatedAt == rows[key].lastSeen == now
    {
      rows := rows[key := Row(signature, now, now)];
    }

    /** The UPDATE of the active rows, then the DELETE of the others. */
    method FinishCycle(active: set<Key>, now: real, grace: real)
      modifies this
      ensures rows == Finish(old(rows), active, now, grace)
      ensures forall key :: key in rows <==>
                key in old(rows) && (key in active || (grace > 0.0 && old(rows)[key].lastSeen >= now - grace))
      ensures forall key | key in rows ::
                rows[key] == if key in active then old(rows)[key].(lastSeen := now) else old(rows)[key]
    {
      ghost var was := rows;
      rows := rows + map key | key in rows.Keys * active :: Seen(rows, key, now);
      if grace > 0.0 {
        rows := Keep(rows, set key | key in rows && !(key !in active && rows[key].lastSeen < now - grace));
      } else {
        rows := Keep(rows, active);
      }
      assert rows == Finish(was, active, now, grace);
    }
  }
}
