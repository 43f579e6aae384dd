/** The run's counter table `STATS`: a counter per bucket (a brick set name, a
    brick's `set` value or `'total'`) and per event (`invalid`, `unchanged`, `new`,
    `updated`), every counter starting at zero. */
module Statistics {
  import opened Values

  type Table = map<Value, map<string, nat>>

  /** `table[bucket][event]`, zero when never bumped. */
  function Read(table: Table, bucket: Value, event: string): nat {
    if bucket in table && event in table[bucket] then table[bucket][event] else 0
  }

  /** The table after `n` more `table[bucket][event] += 1`. */
  function Add(table: Table, bucket: Value, event: string, n: nat): (r: Table)
    ensures Read(r, bucket, event) == Read(table, bucket, event) + n
    ensures forall b: Value, e: string :: (b != bucket || e != event) ==> Read(r, b, e) == Read(table, b, e)
  {
    if n == 0 then table
    else
      var row := if bucket in table then table[bucket] else map[];
      table[bucket := row[event := Read(table, bucket, event) + n]]
  }

  /** Two batches of increments on one counter add up. */
  lemma AddAdd(table: Table, bucket: Value, event: string, m: nat, n: nat)
    ensures Add(Add(table, bucket, event, m), bucket, event, n) == Add(table, bucket, event, m + n)
  {
    if m > 0 && n > 0 {
      var row := if bucket in table then table[bucket] else map[];
      var once := Add(table, bucket, event, m);
      assert once[bucket] == row[event := Read(table, bucket, event) + m];
      assert once[bucket][event := Read(table, bucket, event) + m + n]
          == row[event := Read(table, bucket, event) + m + n];
    }
  }

  class Stats {
    var table: Table

    constructor()
      ensures table == map[]
    {
      table := map[];
    }

    function Count(bucket: Value, event: string): nat
      reads this
    {
      Read(table, bucket, event)
    }

    /** `STATS[bucket][event] += 1` */
    method Bump(bucket: Value, event: string)
      modifies this
      ensures table == Add(old(table), bucket, event, 1)
      ensures Count(bucket, event) == old(Count(bucket, event)) + 1
    {
      table := Add(table, bucket, event, 1);
    }
  }
}
