/** The iterator interface as a cursor over a sorted run: what memtable and table iterators provide. */
module Iterator {
  import opened DbFormat

  type Run = run: seq<Entry> | Sorted(run) witness []

  class Iter {
    const data: Run
    var pos: Option<nat>

    predicate Ok()
      reads this
    {
      pos.Some? ==> pos.value < |data|
    }

    constructor (data: Run)
      ensures Ok() && this.data == data && pos == None
    {
      this.data, pos := data, None;
    }

    predicate Valid()
      reads this
    {
      pos.Some?
    }

    function Current(): Entry
      reads this
      requires Ok() && Valid()
    {
      data[pos.value]
    }

    method SeekToFirst()
      requires Ok()
      modifies this
      ensures Ok() && pos == if data == [] then None else Some(0)
    {
      pos := if data == [] then None else Some(0);
    }

    method SeekToLast()
      requires Ok()
      modifies this
      ensures Ok() && pos == if data == [] then None else Some(|data| - 1)
    {
      pos := if data == [] then None else Some(|data| - 1);
    }

    /** To the first entry at or after `t`. */
    method Seek(t: IKey)
      requires Ok()
      modifies this
      ensures Ok() && pos == if SeekIndex(data, t) < |data| then Some(SeekIndex(data, t)) else None
    {
      var i := SeekIndex(data, t);
      pos := if i < |data| then Some(i) else None;
    }

    method Next()
      requires Ok() && Valid()
      modifies this
      ensures Ok() && pos == if old(pos).value + 1 < |data| then Some(old(pos).value + 1) else None
    {
      pos := if pos.value + 1 < |data| then Some(pos.value + 1) else None;
    }

    method Prev()
      requires Ok() && Valid()
      modifies this
      ensures Ok() && pos == if old(pos).value > 0 then Some(old(pos).value - 1) else None
    {
      pos := if pos.value > 0 then Some(pos.value - 1) else None;
    }
  }
}
