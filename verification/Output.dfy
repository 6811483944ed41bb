/** basic_http_session: the loops which push bytes into the socket. */
module Output {
  import opened Bytes

  const IOV_MAX := 1024

  /** What the socket does with one write: it takes at most `n` bytes, it takes none for now and the
      session is resumed later, in order or with an error, or it fails from now on. An error of the
      wait, as when the peer has shut down its side, says nothing about the next write. */
  datatype Attempt = Took(n: nat) | Blocked | Interrupted | Broken

  /** The next write ends in an error; a session which is never resumed again counts as such. */
  predicate Fails(script: seq<Attempt>) { script == [] || script[0].Interrupted? || script[0].Broken? }

  function Taken(script: seq<Attempt>, offered: nat): nat {
    if script != [] && script[0].Took? then Min(script[0].n, offered) else 0
  }

  function Later(script: seq<Attempt>): seq<Attempt> {
    if script == [] || script[0].Broken? then script else script[1..]
  }

  /** How many writes will make progress before one fails. */
  function Grants(script: seq<Attempt>): nat
  {
    if Fails(script) then 0
    else (if script[0].Took? && script[0].n > 0 then 1 else 0) + Grants(script[1..])
  }

  function Total(buffers: seq<string>): nat { |Flatten(buffers)| }

  /** The bytes one vectored write puts in front of the socket. Plain sockets gather at most
      IOV_MAX buffers; TLS copies into one buffer as big as the socket's. */
  function Offer(tls: bool, socketSize: nat, pending: seq<string>): string
    requires pending != []
  {
    if !tls then Flatten(pending[..Min(|pending|, IOV_MAX)])
    else if |pending| == 1 || |pending[0]| >= socketSize then pending[0]
    else Flatten(pending)[..Min(socketSize, |Flatten(pending)|)]
  }

  predicate AllEmpty(buffers: seq<string>) { forall i :: 0 <= i < |buffers| ==> buffers[i] == "" }

  /** Bytes are left, but a vectored write would not offer any. */
  predicate Stuck(tls: bool, socketSize: nat, buffers: seq<string>) {
    && Flatten(buffers) != ""
    && if tls then socketSize == 0 && buffers[0] == "" else AllEmpty(buffers[..Min(|buffers|, IOV_MAX)])
  }

  /** What is left of the buffers after their first `n` bytes. */
  function Drop(buffers: seq<string>, n: nat): (rest: seq<string>)
    requires n <= Total(buffers)
  {
    if buffers == [] then []
    else if |buffers[0]| <= n then Drop(buffers[1..], n - |buffers[0]|)
    else [buffers[0][n..]] + buffers[1..]
  }

  lemma {:induction false} DropBytes(buffers: seq<string>, n: nat)
    requires n <= Total(buffers)
    ensures Flatten(Drop(buffers, n)) == Flatten(buffers)[n..]
    ensures Drop(buffers, n) != [] ==> Drop(buffers, n)[0] != ""
  {
    if buffers != [] && |buffers[0]| <= n {
      DropBytes(buffers[1..], n - |buffers[0]|);
    }
  }

  /** A whole write against a script: how much goes out, what is left of the script, and whether the
      write returns. */
  datatype Sent = Sent(count: nat, script: seq<Attempt>, ok: bool)

  function Sends(tls: bool, socketSize: nat, buffers: seq<string>, script: seq<Attempt>): (r: Sent)
    decreases |script|
  {
    if Flatten(buffers) == "" then Sent(0, script, true)
    else if Fails(script) then Sent(0, Later(script), false)
    else
      var n := Min(Taken(script, |Offer(tls, socketSize, buffers)|), Total(buffers));
      var r := Sends(tls, socketSize, if n == 0 then buffers else Drop(buffers, n), Later(script));
      Sent(n + r.count, r.script, r.ok)
  }

  /** `part` is what is still to come of `all` after `n` bytes. */
  predicate Continues(all: Sent, n: int, part: Sent) {
    all.count == n + part.count && all.script == part.script && all.ok == part.ok
  }

  lemma SendsStep(tls: bool, socketSize: nat, buffers: seq<string>, script: seq<Attempt>)
    ensures var r := Sends(tls, socketSize, buffers, script);
            if Flatten(buffers) == "" then r == Sent(0, script, true)
            else if Fails(script) then r == Sent(0, Later(script), false)
            else
              var n := Min(Taken(script, |Offer(tls, socketSize, buffers)|), Total(buffers));
              Continues(r, n, Sends(tls, socketSize, if n == 0 then buffers else Drop(buffers, n), Later(script)))
  {
    hide Drop, Offer, Flatten;
  }

  /** The same for a single buffer. */
  lemma SendsOne(tls: bool, socketSize: nat, data: string, script: seq<Attempt>)
    ensures var r := Sends(tls, socketSize, [data], script);
            if data == "" then r == Sent(0, script, true)
            else if Fails(script) then r == Sent(0, Later(script), false)
            else
              var n := Taken(script, |data|);
              Continues(r, n, Sends(tls, socketSize, [data[n..]], Later(script)))
  {
    assert Flatten([data]) == data + Flatten([]);
    assert [data][..1] == [data];
    SendsStep(tls, socketSize, [data], script);
    var n := Taken(script, |data|);
    assert Flatten([data[n..]]) == data[n..] + Flatten([]);
    assert data[0..] == data && [data][1..] == [];
    if n == |data| {
      SendsStep(tls, socketSize, [], Later(script));
      SendsStep(tls, socketSize, [""], Later(script));
    } else if n > 0 {
      assert Drop([data], n) == [data[n..]];
    }
  }

  lemma {:induction false} EmptyIff(buffers: seq<string>)
    ensures Flatten(buffers) == "" <==> AllEmpty(buffers)
  {
    if buffers != [] {
      EmptyIff(buffers[1..]);
      assert AllEmpty(buffers) <==> buffers[0] == "" && AllEmpty(buffers[1..]) by {
        if buffers[0] == "" && AllEmpty(buffers[1..]) {
          forall i | 0 <= i < |buffers| ensures buffers[i] == "" {
            if i > 0 { assert buffers[i] == buffers[1..][i - 1]; }
          }
        }
      }
    }
  }

  lemma FlattenSplit(buffers: seq<string>, n: nat)
    requires n <= |buffers|
    ensures Flatten(buffers) == Flatten(buffers[..n]) + Flatten(buffers[n..])
  {
    hide Flatten;
    FlattenAppend(buffers[..n], buffers[n..]);
    assert buffers[..n] + buffers[n..] == buffers;
  }

  /** A vectored write only ever offers a prefix of what is pending, and an empty one exactly
      when the buffers are stuck. */
  lemma OfferIsPrefix(tls: bool, socketSize: nat, pending: seq<string>)
    requires Flatten(pending) != ""
    ensures Offer(tls, socketSize, pending) <= Flatten(pending)
    ensures Offer(tls, socketSize, pending) == "" <==> Stuck(tls, socketSize, pending)
  {
    var n := Min(|pending|, IOV_MAX);
    FlattenSplit(pending, n);
    EmptyIff(pending[..n]);
    if |pending| == 1 { assert Flatten(pending[1..]) == ""; }
  }

  /** The length of all buffers together. */
  method TotalOf(buffers: array<string>) returns (size: nat)
    ensures size == Total(buffers[..])
  {
    size := 0;
    for i := 0 to buffers.Length
      invariant size == Total(buffers[..i])
    {
      FlattenStep(buffers[..], i);
      assert buffers[..][..i] == buffers[..i] && buffers[..][..i + 1] == buffers[..i + 1];
      size := size + |buffers[i]|;
    }
    assert buffers[..buffers.Length] == buffers[..];
  }

  /** The send side of a session. */
  class Session {
    const tls: bool
    const socketSize: nat
    var sent: string
    var script: seq<Attempt>
    var writeBuffers: seq<string>

    constructor (tls: bool, socketSize: nat, script: seq<Attempt>)
      ensures this.tls == tls && this.socketSize == socketSize && sent == "" && this.script == script
    {
      this.tls, this.socketSize := tls, socketSize;
      sent, this.script, writeBuffers := "", script, [];
    }

    /** One write to the socket and the wait it may take. */
    method WriteSome(data: string) returns (written: nat, failed: bool)
      modifies this`sent, this`script
      ensures written == Taken(old(script), |data|) && sent == old(sent) + data[..written]
      ensures failed == Fails(old(script)) && script == Later(old(script))
      ensures failed ==> written == 0 && Grants(old(script)) == 0
      ensures !failed ==> |script| < |old(script)|
      ensures !failed && data != "" ==> Grants(script) == Grants(old(script)) - if written > 0 then 1 else 0
    {
      if script == [] || script[0].Broken? {
        return 0, true;
      }
      failed := script[0].Interrupted?;
      written := if script[0].Took? then Min(script[0].n, |data|) else 0;
      sent := sent + data[..written];
      script := script[1..];
    }

    /** write(const_buffer) */
    method Write(data: string) returns (ok: bool)
      modifies this`sent, this`script
      ensures old(sent) <= sent <= old(sent) + data
      ensures ok <==> sent == old(sent) + data
      ensures Sends(tls, socketSize, [data], old(script)) == Sent(|sent| - |old(sent)|, script, ok)
      ensures Grants(old(script)) >= |data| ==> ok
      ensures Grants(script) + |sent| >= Grants(old(script)) + |old(sent)|
    {
      hide Grants, Sends, Fails, Later;
      var left := data;
      while left != ""
        invariant old(sent) <= sent && sent + left == old(sent) + data
        invariant Grants(script) + |sent| >= Grants(old(script)) + |old(sent)|
        invariant Continues(Sends(tls, socketSize, [data], old(script)), |sent| - |old(sent)|,
                            Sends(tls, socketSize, [left], script))
        decreases |script|
      {
        SendsOne(tls, socketSize, left, script);
        var written, failed := WriteSome(left);
        if failed {
          return false;
        }
        assert left == left[..written] + left[written..];
        left := left[written..];
      }
      SendsOne(tls, socketSize, left, script);
      return true;
    }

    /** The TLS copy into one flat buffer. */
    method FlatBuffer(pending: seq<string>) returns (flat: string)
      ensures flat == Flatten(pending)[..Min(socketSize, Total(pending))]
    {
      flat := "";
      var i := 0;
      while i < |pending| && |flat| != socketSize
        invariant i <= |pending| && |flat| <= socketSize
        invariant flat == Flatten(pending[..i])[..Min(socketSize, Total(pending[..i]))]
      {
        var size := Min(|pending[i]|, socketSize - |flat|);
        FlattenStep(pending, i);
        flat := flat + pending[i][..size];
        i := i + 1;
      }
      FlattenSplit(pending, i);
      if i == |pending| { assert pending[..i] == pending; }
    }

    /** One vectored write to the socket. */
    method WriteSomeBuffers(pending: seq<string>) returns (written: nat, failed: bool)
      requires Flatten(pending) != ""
      modifies this`sent, this`script
      ensures written <= Total(pending) && sent == old(sent) + Flatten(pending)[..written]
      ensures written == Min(Taken(old(script), |Offer(tls, socketSize, pending)|), Total(pending))
      ensures failed == Fails(old(script)) && script == Later(old(script))
      ensures failed ==> written == 0 && Grants(old(script)) == 0
      ensures !failed ==> |script| < |old(script)|
      ensures Stuck(tls, socketSize, pending) ==> written == 0
      ensures !failed && !Stuck(tls, socketSize, pending) ==>
                Grants(script) == Grants(old(script)) - if written > 0 then 1 else 0
    {
      var offer := "";
      if !tls {
        offer := Flatten(pending[..Min(|pending|, IOV_MAX)]);
      } else if |pending| == 1 || |pending[0]| >= socketSize {
        offer := pending[0];
      } else {
        offer := FlatBuffer(pending);
      }
      OfferIsPrefix(tls, socketSize, pending);
      assert offer == Offer(tls, socketSize, pending);
      written, failed := WriteSome(offer);
      assert offer[..written] == Flatten(pending)[..written];
    }

    /** Drops the buffers which went out completely and shortens the one which went out half way. */
    method DropWritten(first: nat, written: nat) returns (next: nat)
      requires first < |writeBuffers| && 0 < written <= Total(writeBuffers[first..])
      modifies this`writeBuffers
      ensures next <= |writeBuffers|
      ensures writeBuffers[next..] == Drop(old(writeBuffers)[first..], written)
    {
      next := first;
      var left := written;
      while next < |writeBuffers| && |writeBuffers[next]| <= left
        invariant writeBuffers == old(writeBuffers)
        invariant first <= next <= |writeBuffers| && 0 <= left <= Total(writeBuffers[next..])
        invariant Drop(writeBuffers[next..], left) == Drop(writeBuffers[first..], written)
      {
        assert writeBuffers[next..][1..] == writeBuffers[next + 1..];
        left := left - |writeBuffers[next]|;
        next := next + 1;
      }
      if next < |writeBuffers| && left > 0 {
        assert writeBuffers[next..][1..] == writeBuffers[next + 1..];
        writeBuffers := writeBuffers[next := writeBuffers[next][left..]];
        assert writeBuffers[next..][1..] == old(writeBuffers)[next + 1..];
      }
    }

    /** write(span<const_buffer>): the caller's descriptors stay as they are, whatever the socket
        takes is a prefix of their concatenation, and a call which returns has sent all of it. It
        does return when the socket lets it make progress often enough, unless it is stuck. */
    method WriteBuffers(buffers: array<string>) returns (ok: bool)
      modifies this`sent, this`script, this`writeBuffers
      ensures old(sent) <= sent <= old(sent) + Flatten(buffers[..])
      ensures ok <==> sent == old(sent) + Flatten(buffers[..])
      ensures Sends(tls, socketSize, buffers[..], old(script)) == Sent(|sent| - |old(sent)|, script, ok)
      ensures Stuck(tls, socketSize, buffers[..]) ==> !ok && sent == old(sent)
      ensures !Stuck(tls, socketSize, buffers[..]) && Grants(old(script)) >= Total(buffers[..]) ==> ok
      ensures !Stuck(tls, socketSize, buffers[..]) ==> Grants(script) + |sent| >= Grants(old(script)) + |old(sent)|
    {
      var total := TotalOf(buffers);
      if total == 0 {
        return true;
      }
      writeBuffers := buffers[..];
      ok := Push(buffers[..]);
    }

    /** The loop over what is pending. */
    method Push(ghost all: seq<string>) returns (ok: bool)
      requires writeBuffers == all && Flatten(all) != ""
      modifies this`sent, this`script, this`writeBuffers
      ensures old(sent) <= sent <= old(sent) + Flatten(all)
      ensures ok <==> sent == old(sent) + Flatten(all)
      ensures Sends(tls, socketSize, all, old(script)) == Sent(|sent| - |old(sent)|, script, ok)
      ensures Stuck(tls, socketSize, all) ==> !ok && sent == old(sent)
      ensures !Stuck(tls, socketSize, all) && Grants(old(script)) >= Total(all) ==> ok
      ensures !Stuck(tls, socketSize, all) ==> Grants(script) + |sent| >= Grants(old(script)) + |old(sent)|
    {
      hide Flatten, Stuck, Grants, Sends, Drop, Offer, Taken, Fails, Later;
      EmptyIff(all);
      var first := 0;
      assert writeBuffers[0..] == all;
      while first < |writeBuffers|
        invariant first <= |writeBuffers|
        invariant old(sent) <= sent && sent + Flatten(writeBuffers[first..]) == old(sent) + Flatten(all)
        invariant first < |writeBuffers| ==> Flatten(writeBuffers[first..]) != ""
        invariant Stuck(tls, socketSize, all) ==>
                  sent == old(sent) && first < |writeBuffers| && writeBuffers[first..] == all
        invariant !Stuck(tls, socketSize, all) ==> !Stuck(tls, socketSize, writeBuffers[first..])
        invariant !Stuck(tls, socketSize, all) ==> Grants(script) + |sent| >= Grants(old(script)) + |old(sent)|
        invariant Continues(Sends(tls, socketSize, all, old(script)), |sent| - |old(sent)|,
                            Sends(tls, socketSize, writeBuffers[first..], script))
        decreases |script|
      {
        ghost var pending := writeBuffers[first..];
        SendsStep(tls, socketSize, pending, script);
        var written, failed := WriteSomeBuffers(writeBuffers[first..]);
        if failed {
          return false;
        }
        if written > 0 {
          first := DropWritten(first, written);
          DropBytes(pending, written);
          assert Flatten(pending) == Flatten(pending)[..written] + Flatten(writeBuffers[first..]);
          assert first < |writeBuffers| ==> writeBuffers[first..][0] == writeBuffers[first];
          FrontNotStuck(tls, socketSize, writeBuffers, first);
        }
      }
      EmptyIff(writeBuffers[first..]);
      SendsStep(tls, socketSize, writeBuffers[first..], script);
      return true;
    }
  }

  lemma FrontNotStuck(tls: bool, socketSize: nat, buffers: seq<string>, first: nat)
    requires first <= |buffers| && (first < |buffers| ==> buffers[first] != "")
    ensures !Stuck(tls, socketSize, buffers[first..])
    ensures first < |buffers| ==> Flatten(buffers[first..]) != ""
  {
    if first < |buffers| {
      var pending := buffers[first..];
      assert pending[0] != "" && pending[..Min(|pending|, IOV_MAX)][0] != "";
    }
  }

  lemma FlattenStep(buffers: seq<string>, i: nat)
    requires i < |buffers|
    ensures Flatten(buffers[..i + 1]) == Flatten(buffers[..i]) + buffers[i]
  {
    FlattenAppend(buffers[..i], [buffers[i]]);
    assert buffers[..i + 1] == buffers[..i] + [buffers[i]];
    assert Flatten([buffers[i]]) == buffers[i] + Flatten([]);
  }
}
