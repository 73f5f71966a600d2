/** The scroll-back that a newly attached viewer is sent. */
module ReplayBuffer {
  import opened Bytes

  class ReplayBuffer {
    var bytes: seq<byte>
    const cap: nat

    constructor (cap: nat)
      ensures bytes == [] && this.cap == cap
    {
      bytes := [];
      this.cap := cap;
    }

    method Push(data: seq<byte>)
      requires |bytes| <= cap
      modifies this
      ensures bytes == Last(old(bytes) + data, cap)
    {
      if |data| >= cap {
        bytes := data[|data| - cap..];
        DropAcross(old(bytes), data, |old(bytes)| + |data| - cap);
        return;
      }
      ghost var gone := 0;
      while |bytes| + |data| > cap
        invariant gone <= |old(bytes)| && bytes == old(bytes)[gone..]
        invariant gone > 0 ==> |bytes| + |data| >= cap
        decreases |bytes|
      {
        bytes := bytes[1..];
        gone := gone + 1;
      }
      bytes := bytes + data;
      assert old(bytes) == old(bytes)[..gone] + old(bytes)[gone..];
      Assoc(old(bytes)[..gone], old(bytes)[gone..], data);
      DropAcross(old(bytes)[..gone], bytes, gone);
    }
  }

  /** The buffer after one push per piece, starting from `kept`. */
  function PushAll(kept: seq<byte>, pieces: seq<seq<byte>>, cap: nat): (r: seq<byte>)
    decreases |pieces|
  {
    if pieces == [] then kept else PushAll(Last(kept + pieces[0], cap), pieces[1..], cap)
  }

  /** After any pushes the buffer is the tail of everything pushed. */
  lemma {:induction false} HoldsTail(before: seq<byte>, pieces: seq<seq<byte>>, cap: nat)
    ensures PushAll(Last(before, cap), pieces, cap) == Last(before + Flatten(pieces), cap)
    decreases |pieces|
  {
    if pieces == [] {
      assert before + [] == before;
    } else {
      LastOfLast(before, pieces[0], cap);
      HoldsTail(before + pieces[0], pieces[1..], cap);
      Assoc(before, pieces[0], Flatten(pieces[1..]));
    }
  }
}
