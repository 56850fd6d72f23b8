/** A two-entry output stage whose ready signal is a register. */
module Skid {
  import opened Options

  // `open` is the registered ready signal towards the source.
  datatype Skid<T> = Skid(out: Option<T>, temp: Option<T>, open: bool)

  // An open stage has the second entry free.
  predicate Ok<T>(s: Skid<T>) {
    s.open ==> s.temp.None?
  }

  function Contents<T>(s: Skid<T>): seq<T> {
    Held(s.out) + Held(s.temp)
  }

  function Clock<T>(s: Skid<T>, input: Option<T>, ready: bool): Skid<T> {
    var open := ready || (s.temp.None? && s.out.None?);
    if s.open then
      if ready || s.out.None? then Skid(input, s.temp, open) else Skid(s.out, input, open)
    else if ready then Skid(s.temp, None, open)
    else s.(open := open)
  }

  // What is handed on at this edge.
  function Taken<T>(s: Skid<T>, ready: bool): seq<T> {
    if ready then Held(s.out) else []
  }

  // Nothing is lost, repeated or reordered, as long as nothing is put into a closed stage.
  lemma SkidKeeps<T>(s: Skid<T>, input: Option<T>, ready: bool)
    requires Ok(s) && (input.Some? ==> s.open) && (s.out.None? ==> s.temp.None?)
    ensures var t := Clock(s, input, ready);
      && Ok(t) && (t.out.None? ==> t.temp.None?)
      && Taken(s, ready) + Contents(t) == Contents(s) + Held(input)
  {
  }

  // A ready reader opens the stage and empties it: at most what has just come is still there.
  lemma SkidMoves<T>(s: Skid<T>, input: Option<T>, ready: bool)
    requires Ok(s) && (input.Some? ==> s.open) && (s.out.None? ==> s.temp.None?)
    ensures var t := Clock(s, input, ready);
      && (ready || Contents(s) == [] ==> t.open)
      && (ready ==> |Contents(t)| <= 1 && |Contents(t)| == |Contents(s)| + |Held(input)| - |Held(s.out)|)
      && (!ready ==> |Contents(t)| == |Contents(s)| + |Held(input)|)
  {
  }
}
