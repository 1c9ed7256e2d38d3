/** The bounded buffer between the copy and the heartbeat (src/migrater/progress.py). */
module Progress {

  /** The newest n elements. */
  function Newest<T>(s: seq<T>, n: nat): seq<T> { if |s| <= n then s else s[|s| - n..] }

  class ProgressBuffer<T> {
    const maxlen: nat
    var items: seq<T>

    constructor (maxlen: nat)
      ensures this.maxlen == maxlen && items == []
    {
      this.maxlen := maxlen;
      items := [];
    }

    /** Appends; a full buffer drops its oldest element. */
    method Add(message: T)
      modifies this
      ensures items == Newest(old(items) + [message], maxlen)
    {
      items := items + [message];
      if |items| > maxlen {
        items := items[|items| - maxlen..];
      }
    }

    /** Takes everything out. */
    method Pop() returns (taken: seq<T>)
      modifies this
      ensures taken == old(items) && items == []
    {
      taken := items;
      items := [];
    }
  }

  function AddAll<T>(items: seq<T>, messages: seq<T>, maxlen: nat): seq<T> {
    if messages == [] then items
    else Newest(AddAll(items, messages[..|messages| - 1], maxlen) + [messages[|messages| - 1]], maxlen)
  }

  /** However many messages are added, exactly the newest survive. */
  lemma {:induction false} AddAllKeepsNewest<T>(items: seq<T>, messages: seq<T>, maxlen: nat)
    requires |items| <= maxlen
    ensures AddAll(items, messages, maxlen) == Newest(items + messages, maxlen)
    ensures var all := items + messages;
      AddAll(items, messages, maxlen) == if |all| <= maxlen then all else all[|all| - maxlen..]
  {
    if messages == [] {
      assert items + messages == items;
    } else {
      var n := |messages| - 1;
      AddAllKeepsNewest(items, messages[..n], maxlen);
      assert messages == messages[..n] + [messages[n]];
      assert items + messages == items + messages[..n] + [messages[n]];
      NewestAgain(items + messages[..n], messages[n], maxlen);
    }
  }

  lemma NewestAgain<T>(s: seq<T>, x: T, n: nat)
    ensures Newest(Newest(s, n) + [x], n) == Newest(s + [x], n)
  {
  }
}
