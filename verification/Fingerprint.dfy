/**
  The fingerprint that ties an Idempotency-Key to one request.  SHA-256 is taken to be
  injective, so a digest stands for the bytes that were fed to it.
*/
module Fingerprint {
  import opened Common

  /** One keyed call.  `verb` is the HTTP method; text is held as its UTF-8 bytes. */
  datatype Attempt = Attempt(user: int, key: string, verb: seq<Byte>, path: seq<Byte>, body: seq<Byte>)

  const NUL: Byte := 0

  function Preimage(a: Attempt): seq<Byte> {
    a.verb + [NUL] + a.path + [NUL] + a.body
  }

  predicate SameRequest(a: Attempt, b: Attempt) {
    a.verb == b.verb && a.path == b.path && a.body == b.body
  }

  predicate NulFreeHead(a: Attempt) {
    NUL !in a.verb && NUL !in a.path
  }

  /** The digest is fed piece by piece. */
  method Digest(a: Attempt) returns (fed: seq<Byte>)
    ensures fed == Preimage(a)
  {
    fed := a.verb;
    fed := fed + [NUL];
    fed := fed + a.path;
    fed := fed + [NUL];
    fed := fed + a.body;
  }

  /** Method, a zero byte, path, a zero byte, body. */
  lemma PreimageLayout(a: Attempt)
    ensures var w := Preimage(a);
      && |w| == |a.verb| + |a.path| + |a.body| + 2
      && w[..|a.verb|] == a.verb && w[|a.verb|] == 0
      && w[|a.verb| + 1..|a.verb| + 1 + |a.path|] == a.path && w[|a.verb| + 1 + |a.path|] == 0
      && w[|a.verb| + |a.path| + 2..] == a.body
  {
  }

  lemma SplitAtFirstNul(x: seq<Byte>, u: seq<Byte>, y: seq<Byte>, v: seq<Byte>)
    requires NUL !in x && NUL !in y
    requires x + [NUL] + u == y + [NUL] + v
    ensures x == y && u == v
  {
    var w := x + [NUL] + u;
    assert w[|x|] == NUL && w[|y|] == NUL;
    assert forall j :: 0 <= j < |x| ==> w[j] == x[j];
    assert forall j :: 0 <= j < |y| ==> w[j] == y[j];
    assert |x| == |y|;
    assert x == w[..|x|] && y == w[..|y|];
    assert u == w[|x| + 1..] && v == w[|y| + 1..];
  }

  /** Requests whose method and path carry no NUL share a fingerprint only if they are the same request. */
  lemma FingerprintIdentifiesRequest(a: Attempt, b: Attempt)
    requires NulFreeHead(a) && NulFreeHead(b)
    ensures Preimage(a) == Preimage(b) <==> SameRequest(a, b)
  {
    if Preimage(a) == Preimage(b) {
      assert Preimage(a) == a.verb + [NUL] + (a.path + [NUL] + a.body);
      assert Preimage(b) == b.verb + [NUL] + (b.path + [NUL] + b.body);
      SplitAtFirstNul(a.verb, a.path + [NUL] + a.body, b.verb, b.path + [NUL] + b.body);
      SplitAtFirstNul(a.path, a.body, b.path, b.body);
    }
  }

  lemma SplitAt(x: seq<Byte>, i: nat)
    requires i < |x| && x[i] == NUL
    ensures x == x[..i] + [NUL] + x[i + 1..]
  {
  }

  lemma Regroup(a: seq<Byte>, b: seq<Byte>, c: seq<Byte>, d: seq<Byte>)
    ensures a + (b + c + d) == a + b + c + d
  {
  }

  /** Two different requests with one fingerprint. */
  ghost predicate Collide(a: Attempt, b: Attempt) {
    Preimage(b) == Preimage(a) && !SameRequest(a, b)
  }

  lemma NulInVerbCollides(a: Attempt) returns (b: Attempt)
    requires NUL in a.verb
    ensures Collide(a, b)
  {
    var i :| 0 <= i < |a.verb| && a.verb[i] == NUL;
    b := Attempt(a.user, a.key, a.verb[..i], a.verb[i + 1..], a.path + [NUL] + a.body);
    SplitAt(a.verb, i);
    Regroup(a.verb + [NUL], a.path, [NUL], a.body);
    assert |b.verb| == i;
  }

  lemma NulInPathCollides(a: Attempt) returns (b: Attempt)
    requires NUL in a.path
    ensures Collide(a, b) && b.verb == a.verb
  {
    var i :| 0 <= i < |a.path| && a.path[i] == NUL;
    var head, rest := a.path[..i], a.path[i + 1..];
    b := Attempt(a.user, a.key, a.verb, head, rest + [NUL] + a.body);
    SplitAt(a.path, i);
    Regroup(a.verb + [NUL], head, [NUL], rest);
    Regroup(a.verb + [NUL] + head + [NUL], rest, [NUL], a.body);
    assert |b.path| == i;
  }

  lemma NulInBodyCollides(a: Attempt) returns (b: Attempt)
    requires NUL in a.body
    ensures Collide(a, b) && b.verb == a.verb
  {
    var i :| 0 <= i < |a.body| && a.body[i] == NUL;
    var head, rest := a.body[..i], a.body[i + 1..];
    b := Attempt(a.user, a.key, a.verb, a.path + [NUL] + head, rest);
    SplitAt(a.body, i);
    Regroup(a.verb + [NUL], a.path, [NUL], head);
    Regroup(a.verb + [NUL] + a.path + [NUL], head, [NUL], rest);
    assert |b.path| == |a.path| + 1 + i;
  }

  lemma SeparatorsAreTheOnlyNuls(a: Attempt, b: Attempt)
    requires NUL !in a.verb && NUL !in a.path && NUL !in a.body
    requires Preimage(b) == Preimage(a)
    ensures SameRequest(a, b)
  {
    var w := Preimage(a);
    var first, second := |a.verb|, |a.verb| + 1 + |a.path|;
    assert forall i :: 0 <= i < first ==> w[i] == a.verb[i];
    assert forall i :: first < i < second ==> w[i] == a.path[i - first - 1];
    assert forall i :: second < i < |w| ==> w[i] == a.body[i - second - 1];
    assert w == Preimage(b);
    assert w[|b.verb|] == NUL && w[|b.verb| + 1 + |b.path|] == NUL;
    assert |b.verb| == first && |b.path| == |a.path|;
    assert a.verb == w[..first] && b.verb == w[..first];
    assert a.path == w[first + 1..second] && b.path == w[first + 1..second];
    assert a.body == w[second + 1..] && b.body == w[second + 1..];
  }

  lemma SameVerbTail(a: Attempt, b: Attempt)
    requires a.verb == b.verb && Preimage(a) == Preimage(b)
    ensures Preimage(a.(verb := [])) == Preimage(b.(verb := []))
  {
    var n := |a.verb|;
    Regroup(a.verb, [NUL] + a.path, [NUL], a.body);
    Regroup(b.verb, [NUL] + b.path, [NUL], b.body);
    assert Preimage(a) == a.verb + ([NUL] + a.path + [NUL] + a.body);
    assert Preimage(b) == b.verb + ([NUL] + b.path + [NUL] + b.body);
    assert Preimage(a)[n..] == [NUL] + a.path + [NUL] + a.body;
    assert Preimage(b)[n..] == [NUL] + b.path + [NUL] + b.body;
    assert [] + [NUL] == [NUL];
  }

  /**
    Without that restriction the separator is ambiguous, and exactly so: some different
    request has the same fingerprint if and only if a NUL occurs anywhere in this one, and one
    with the same method does if and only if a NUL occurs in the path or the body.
  */
  lemma CollidesExactlyWithNul(a: Attempt)
    ensures (exists b :: Collide(a, b))
       <==> NUL in a.verb || NUL in a.path || NUL in a.body
    ensures (exists b :: Collide(a, b) && b.verb == a.verb)
       <==> NUL in a.path || NUL in a.body
  {
    if NUL in a.path {
      var b := NulInPathCollides(a);
    } else if NUL in a.body {
      var b := NulInBodyCollides(a);
    } else {
      forall b: Attempt | b.verb == a.verb
        ensures !Collide(a, b)
      {
        if Preimage(b) == Preimage(a) {
          SameVerbTail(a, b);
          SeparatorsAreTheOnlyNuls(a.(verb := []), b.(verb := []));
        }
      }
      if NUL in a.verb {
        var b := NulInVerbCollides(a);
      } else {
        forall b
          ensures !Collide(a, b)
        {
          if Preimage(b) == Preimage(a) {
            SeparatorsAreTheOnlyNuls(a, b);
          }
        }
      }
    }
  }
}
