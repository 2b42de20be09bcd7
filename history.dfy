/** The undo history as a value: a stack kept in a list, newest command last. */
module History {

  /** performCommand's bookkeeping: the command goes at the end. */
  function Push<C>(h: seq<C>, c: C): seq<C>
  {
    h + [c]
  }

  /** undoLastCommand's bookkeeping: the last command is removed; an empty history
      stays empty. */
  function Pop<C>(h: seq<C>): seq<C>
  {
    if h == [] then [] else h[..|h| - 1]
  }

  /** Several commands performed in turn. */
  function PushAll<C>(h: seq<C>, cs: seq<C>): seq<C>
    decreases |cs|
  {
    if cs == [] then h else PushAll(Push(h, cs[0]), cs[1..])
  }

  /** Several undos in a row. */
  function PopN<C>(h: seq<C>, m: nat): seq<C>
  {
    if m == 0 then h else PopN(Pop(h), m - 1)
  }

  /** Undo removes exactly what perform added. */
  lemma PopUndoesPush<C>(h: seq<C>, c: C)
    ensures Pop(Push(h, c)) == h
  {
    assert (h + [c])[..|h|] == h;
  }

  lemma {:induction false} PushAllAppends<C>(h: seq<C>, cs: seq<C>)
    ensures PushAll(h, cs) == h + cs
    decreases |cs|
  {
    if cs != [] {
      PushAllAppends(Push(h, cs[0]), cs[1..]);
      assert h + [cs[0]] + cs[1..] == h + cs;
    }
  }

  lemma {:induction false} PopNDrops<C>(h: seq<C>, m: nat)
    requires m <= |h|
    ensures PopN(h, m) == h[..|h| - m]
  {
    if m > 0 {
      PopNDrops(Pop(h), m - 1);
      assert h[..|h| - 1][..|h| - 1 - (m - 1)] == h[..|h| - m];
    }
  }

  /** N performs followed by M <= N undos leave N - M more entries than before, and the
      entries left are the older ones, in their order. */
  lemma HistoryAccounting<C>(h: seq<C>, cs: seq<C>, m: nat)
    requires m <= |cs|
    ensures |PopN(PushAll(h, cs), m)| == |h| + |cs| - m
    ensures PopN(PushAll(h, cs), m) == h + cs[..|cs| - m]
  {
    PushAllAppends(h, cs);
    PopNDrops(h + cs, m);
    assert (h + cs)[..|h| + |cs| - m] == h + cs[..|cs| - m];
  }
}
