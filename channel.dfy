/**
 * A Go channel as the sequence of values sent on it. Sending on a closed channel and closing it
 * twice panic in Go; here both are preconditions, so a verified caller never does either.
 */
module Channels {
  class Channel<T> {
    var items: seq<T>
    var closed: bool

    constructor ()
      ensures items == [] && !closed
    {
      items := [];
      closed := false;
    }

    method Send(x: T)
      requires !closed
      modifies this
      ensures items == old(items) + [x] && !closed
    {
      items := items + [x];
    }

    method SendAll(xs: seq<T>)
      requires !closed
      modifies this
      ensures items == old(items) + xs && !closed
    {
      items := items + xs;
    }

    method Close()
      requires !closed
      modifies this
      ensures closed && items == old(items)
    {
      closed := true;
    }
  }
}
