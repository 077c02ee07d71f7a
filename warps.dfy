/** Transforms (warps) and transform chains. A chain is applied in list order,
    as sct_concat_transfo and sct_apply_transfo take it; the inverse of a chain
    lists the inverse of every element in reverse order. */
module Warps {

  /** The two landmark-based affine transforms, each a text file. */
  datatype AffineName = StraightToTemplate | TemplateToSubject

  /** One transform file. `negated` is the '-' prefix by which the tools apply
      an affine backwards; an estimated step warp and its inverse are two
      files written by the registration of that step. */
  datatype Warp =
    | CurveToStraight                          // warp_curve2straight
    | StraightToCurve                          // warp_straight2curve
    | Affine(name: AffineName, negated: bool)  // <name>.txt or -<name>.txt
    | StepWarp(step: nat, inverse: bool)       // a warp estimated at a registration step

  /** An entry of a chain: a transform file, or a file that sct_concat_transfo
      made by concatenating several (warp_curve2straightAffine). */
  datatype WarpFile = Single(warp: Warp) | Concatenated(parts: seq<Warp>)

  function Inv(w: Warp): Warp {
    match w
    case CurveToStraight => StraightToCurve
    case StraightToCurve => CurveToStraight
    case Affine(name, negated) => Affine(name, !negated)
    case StepWarp(step, inverse) => StepWarp(step, !inverse)
  }

  lemma InvIsInvolution(w: Warp)
    ensures Inv(Inv(w)) == w && Inv(w) != w
  {
  }

  /** The chain of primitive transforms that a list of files stands for. */
  function Expand(files: seq<WarpFile>): (r: seq<Warp>)
    ensures files == [] ==> r == []
  {
    if files == [] then []
    else
      var head := match files[0]
        case Single(w) => [w]
        case Concatenated(parts) => parts;
      head + Expand(files[1..])
  }

  /** A file made by concatenating transforms stands for those transforms,
      in order, ahead of the rest of the list. */
  lemma ExpandConcatenated(parts: seq<Warp>, rest: seq<WarpFile>)
    ensures Expand([Concatenated(parts)] + rest) == parts + Expand(rest)
  {
    assert ([Concatenated(parts)] + rest)[1..] == rest;
  }

  function Singles(ws: seq<Warp>): (r: seq<WarpFile>)
    ensures |r| == |ws| && forall i | 0 <= i < |ws| :: r[i] == Single(ws[i])
  {
    seq(|ws|, i requires 0 <= i < |ws| => Single(ws[i]))
  }

  lemma {:induction false} ExpandAppend(a: seq<WarpFile>, b: seq<WarpFile>)
    ensures Expand(a + b) == Expand(a) + Expand(b)
  {
    if a == [] {
      assert a + b == b;
    } else {
      assert (a + b)[1..] == a[1..] + b;
      ExpandAppend(a[1..], b);
    }
  }

  lemma {:induction false} ExpandSingles(ws: seq<Warp>)
    ensures Expand(Singles(ws)) == ws
  {
    if ws != [] {
      assert Singles(ws)[1..] == Singles(ws[1..]);
      ExpandSingles(ws[1..]);
    }
  }

  function Reversed<T>(s: seq<T>): (r: seq<T>)
    ensures |r| == |s|
    ensures forall k | 0 <= k < |s| :: r[k] == s[|s| - 1 - k]
  {
    if s == [] then [] else Reversed(s[1..]) + [s[0]]
  }

  /** The inverse of a chain: every element inverted, in reverse order. */
  function InvertChain(s: seq<Warp>): (r: seq<Warp>)
    ensures |r| == |s|
  {
    if s == [] then [] else InvertChain(s[1..]) + [Inv(s[0])]
  }

  lemma {:induction false} InvertChainAt(s: seq<Warp>, k: nat)
    requires k < |s|
    ensures InvertChain(s)[k] == Inv(s[|s| - 1 - k])
  {
    if k < |s| - 1 {
      InvertChainAt(s[1..], k);
    }
  }

  lemma {:induction false} InvertChainAppend(a: seq<Warp>, b: seq<Warp>)
    ensures InvertChain(a + b) == InvertChain(b) + InvertChain(a)
  {
    if a == [] {
      assert a + b == b;
    } else {
      assert (a + b)[1..] == a[1..] + b;
      InvertChainAppend(a[1..], b);
    }
  }

  /** Inverting twice gives the chain back: each direction is the inverse of
      the other. */
  lemma {:induction false} InvertChainInvolution(s: seq<Warp>)
    ensures InvertChain(InvertChain(s)) == s
  {
    if s != [] {
      InvertChainAppend(InvertChain(s[1..]), [Inv(s[0])]);
      assert InvertChain([Inv(s[0])]) == [Inv(Inv(s[0]))];
      InvertChainInvolution(s[1..]);
      InvIsInvolution(s[0]);
      assert s == [s[0]] + s[1..];
    }
  }

  /** A list built by appending each step's inverse and then reversing it is the
      inverse of the list of the steps' forward warps. */
  lemma {:induction false} ReversedInversesIsInverseChain(fwd: seq<Warp>, inv: seq<Warp>)
    requires |fwd| == |inv|
    requires forall k | 0 <= k < |fwd| :: inv[k] == Inv(fwd[k])
    ensures Reversed(inv) == InvertChain(fwd)
  {
    if fwd != [] {
      ReversedInversesIsInverseChain(fwd[1..], inv[1..]);
    }
  }

  // ---- Composition semantics: a chain applied after another cancels
  //      adjacent inverse pairs, as composing a transform with its inverse
  //      gives the identity.

  /** No two neighbours cancel. */
  predicate Reduced(s: seq<Warp>) {
    forall i | 0 <= i < |s| - 1 :: s[i + 1] != Inv(s[i])
  }

  /** Composes one more transform onto an already reduced composite. */
  function Push(stack: seq<Warp>, w: Warp): seq<Warp> {
    if stack != [] && stack[|stack| - 1] == Inv(w) then stack[..|stack| - 1] else stack + [w]
  }

  /** The composite of `stack` followed by the chain s, in reduced form. */
  function Compose(stack: seq<Warp>, s: seq<Warp>): seq<Warp>
    decreases s
  {
    if s == [] then stack else Compose(Push(stack, s[0]), s[1..])
  }

  lemma PushKeepsReduced(stack: seq<Warp>, w: Warp)
    requires Reduced(stack)
    ensures Reduced(Push(stack, w))
  {
  }

  lemma {:induction false} ComposeAppend(stack: seq<Warp>, a: seq<Warp>, b: seq<Warp>)
    ensures Compose(stack, a + b) == Compose(Compose(stack, a), b)
    decreases a
  {
    if a == [] {
      assert a + b == b;
    } else {
      assert (a + b)[1..] == a[1..] + b;
      ComposeAppend(Push(stack, a[0]), a[1..], b);
    }
  }

  /** Applying a chain and then its inverse leaves any reduced composite as it
      was. */
  lemma {:induction false} ChainThenInverseCancels(stack: seq<Warp>, s: seq<Warp>)
    requires Reduced(stack)
    ensures Compose(stack, s + InvertChain(s)) == stack
    decreases s
  {
    if s != [] {
      var w, t := s[0], s[1..];
      var st := Push(stack, w);
      PushKeepsReduced(stack, w);
      assert InvertChain(s) == InvertChain(t) + [Inv(w)];
      assert s + InvertChain(s) == [w] + ((t + InvertChain(t)) + [Inv(w)]);
      ComposeAppend(st, t + InvertChain(t), [Inv(w)]);
      ChainThenInverseCancels(st, t);
      InvIsInvolution(w);
      if stack != [] && stack[|stack| - 1] == Inv(w) {
        var p := stack[..|stack| - 1];
        if p != [] && p[|p| - 1] == w {
          assert false;
        }
        assert p + [Inv(w)] == stack;
      }
    }
  }

  /** The forward chain followed by its inverse chain composes to the
      identity (the empty composite). */
  lemma ForwardThenInverseIsIdentity(fwd: seq<Warp>)
    ensures Compose([], fwd + InvertChain(fwd)) == []
    ensures Compose([], InvertChain(fwd) + fwd) == []
  {
    ChainThenInverseCancels([], fwd);
    ChainThenInverseCancels([], InvertChain(fwd));
    InvertChainInvolution(fwd);
  }
}
