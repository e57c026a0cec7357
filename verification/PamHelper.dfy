/** pam_unlock_helper.py, request_unlock: the peer check and the loop that collects the reply.

    The bytes of the reply are characters here. What the socket delivers is a sequence of reads;
    past its end the peer has closed the connection. */
module PamHelper {
  import opened Prelude

  datatype Read = Chunk(data: string) | Error

  const YES := "1\n"
  const NO := "0\n"
  const MAX_REPLY := 8

  predicate Complete(reply: string) {
    (reply != "" && reply[|reply| - 1] == '\n') || |reply| >= MAX_REPLY
  }

  // The reply that the loop ends with; None when a read raises.
  function Collect(reply: string, input: seq<Read>): Option<string>
    decreases |input|
  {
    if Complete(reply) || input == [] then Some(reply)
    else match input[0]
    case Error => None
    case Chunk(data) => Collect(reply + data, input[1..])
  }

  // How many chunks the loop takes.
  function Taken(reply: string, input: seq<Read>): nat
    decreases |input|
  {
    if Complete(reply) || input == [] || input[0].Error? then 0 else 1 + Taken(reply + input[0].data, input[1..])
  }

  // What lies behind them is never looked at, once the reply is complete.
  lemma {:induction false} TakenDecides(reply: string, input: seq<Read>, more: seq<Read>)
    requires Collect(reply, input).Some? && Complete(Collect(reply, input).value)
    ensures Taken(reply, input) <= |input|
    ensures Collect(reply, input[..Taken(reply, input)] + more) == Collect(reply, input)
    decreases |input|
  {
    if Complete(reply) || input == [] {
      assert input[..0] + more == more;
    } else {
      var next, rest := reply + input[0].data, input[1..];
      var k := Taken(next, rest);
      TakenDecides(next, rest, more);
      assert (input[..k + 1] + more)[0] == input[0] && (input[..k + 1] + more)[1..] == rest[..k] + more;
    }
  }

  function RequestUnlock(peerUid: int, expectedUid: int, input: seq<Read>): bool {
    peerUid == expectedUid && Collect("", input) == Some(YES)
  }

  // What recv(8) can deliver before the end of the stream.
  ghost predicate Fragments(input: seq<Read>) {
    forall r <- input :: r.Chunk? ==> 1 <= |r.data| <= 8
  }

  function Stream(input: seq<Read>): string
    decreases |input|
  {
    if input == [] || input[0].Error? then "" else input[0].data + Stream(input[1..])
  }

  lemma {:induction false} CollectTakesPrefix(reply: string, input: seq<Read>)
    ensures Collect(reply, input).Some? ==>
              reply <= Collect(reply, input).value <= reply + Stream(input)
    ensures Collect(reply, input).Some? && !Complete(Collect(reply, input).value) ==>
              Collect(reply, input).value == reply + Stream(input)
    decreases |input|
  {
    if !Complete(reply) && input != [] && input[0].Chunk? {
      CollectTakesPrefix(reply + input[0].data, input[1..]);
      assert reply + input[0].data + Stream(input[1..]) == reply + Stream(input);
    }
  }

  // A yes needs a stream that starts with the yes reply, from the expected peer.
  lemma {:induction false} YesMeansYes(peerUid: int, expectedUid: int, input: seq<Read>)
    requires RequestUnlock(peerUid, expectedUid, input)
    ensures peerUid == expectedUid && YES <= Stream(input)
  {
    CollectTakesPrefix("", input);
    assert "" + Stream(input) == Stream(input);
  }

  // Exactly when the helper says yes: the yes reply arrives as the first read, or as the first two.
  // Anything behind it that arrives in a later read is never looked at.
  lemma {:induction false} YesExactly(peerUid: int, expectedUid: int, input: seq<Read>)
    requires Fragments(input)
    ensures RequestUnlock(peerUid, expectedUid, input)
            <==> peerUid == expectedUid
                 && ((|input| >= 1 && input[0] == Chunk(YES))
                     || (|input| >= 2 && input[0] == Chunk("1") && input[1] == Chunk("\n")))
  {
    if input != [] && input[0].Chunk? {
      var a := input[0].data;
      assert input[0] in input && "" + a == a;
      assert Collect("", input) == Collect(a, input[1..]);
      if !Complete(a) {
        if |input| > 1 && input[1].Chunk? {
          var b := input[1].data;
          assert input[1] in input && input[1..][0] == input[1];
          CollectTakesPrefix(a + b, input[1..][1..]);
          assert Collect(a, input[1..]) == Collect(a + b, input[1..][1..]);
          if a + b <= YES {
            assert (a + b)[0] == a[0];
            assert a == "1" && b == "\n";
          }
          if a == "1" && b == "\n" {
            assert a + b == YES;
          }
        } else if |input| > 1 {
          assert input[1..][0] == Error;
        } else {
          assert Collect(a, input[1..]) == Some(a);
        }
      }
    }
  }

  // Every way of cutting the whole reply "1\n" into reads is a yes.
  lemma {:induction false} YesHoweverFragmented(uid: int, input: seq<Read>)
    requires Fragments(input) && (forall r <- input :: r.Chunk?) && Stream(input) == YES
    ensures RequestUnlock(uid, uid, input)
  {
    assert input != [];
    var a := input[0].data;
    assert input[0] in input && a[0] == Stream(input)[0];
    if |a| == 1 {
      assert Stream(input)[1..] == Stream(input[1..]);
      assert input[1] in input && input[1..][0] == input[1];
      var b := input[1].data;
      assert b[0] == Stream(input[1..])[0];
      assert a == "1" && b == "\n";
    } else {
      assert a == YES;
    }
    YesExactly(uid, uid, input);
  }

  // The loop itself; it ends after at most eight nonempty reads.
  method ReadReply(peerUid: int, expectedUid: int, input: seq<Read>) returns (yes: bool, count: nat)
    requires Fragments(input)
    ensures yes == RequestUnlock(peerUid, expectedUid, input)
    ensures count == (if peerUid == expectedUid then Taken("", input) else 0) && count <= 8
  {
    count := 0;
    if peerUid != expectedUid {
      return false, 0;
    }
    var reply := "";
    while !Complete(reply) && count < |input|
      invariant count <= |reply| && count <= |input|
      invariant count > 0 ==> count <= MAX_REPLY
      invariant Collect("", input) == Collect(reply, input[count..])
      invariant Taken("", input) == count + Taken(reply, input[count..])
      decreases |input| - count
    {
      var r := input[count];
      assert r in input && input[count..][0] == r && input[count..][1..] == input[count + 1..];
      if r.Error? {
        return false, count;
      }
      reply := reply + r.data;
      count := count + 1;
    }
    yes := reply == YES;
  }
}
