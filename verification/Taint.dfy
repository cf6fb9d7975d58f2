/** Inherited taint of blocks and the permanent taint of the session. */
module Taint {
  import opened Prelude
  import opened BlockTree

  const STATE_OVERRIDE := "control-state-override"
  const REQUEST_CONTROL := "execution-request-control"

  /** The sorted, duplicate-free reason lists of the source are modelled as the sets they list. */
  datatype Safety = Safety(tainted: bool, firstUnsafe: Option<Block>, reasons: set<string>)

  const CLEAN := Safety(false, None, {})

  /** Empty strings are not reasons. */
  function Named(reasons: seq<string>): set<string> {
    set r | r in reasons && r != ""
  }

  /** `blockSafetyForChild`. */
  function SafetyForChild(parent: Safety, b: Block, unsafeReasons: seq<string>): Safety {
    if !parent.tainted && Named(unsafeReasons) == {} then CLEAN
    else Safety(true, if parent.firstUnsafe.None? then Some(b) else parent.firstUnsafe,
                parent.reasons + Named(unsafeReasons))
  }

  /** `taintStoredSession`. */
  function TaintSession(session: Safety, safety: Safety, unsafeReasons: seq<string>): Safety {
    Safety(true, if session.firstUnsafe.None? then safety.firstUnsafe else session.firstUnsafe,
           session.reasons + Named(unsafeReasons))
  }

  // ----- What the flags mean --------------------------------------------------------------------------------

  /** The reasons for which a block itself is unsafe, read off the block: an override, or control requests. */
  function OwnReasons(b: Block): set<string> {
    if b.Genesis? then {}
    else
      (if b.kind.Override? then {STATE_OVERRIDE} else {}) +
      (if b.requests != b.native then {REQUEST_CONTROL} else {})
  }

  predicate Unsafe(b: Block) {
    OwnReasons(b) != {}
  }

  /** `u` is the earliest unsafe block on the chain of `b`. */
  ghost predicate EarliestUnsafe(u: Block, b: Block) {
    Ancestor(u, b) && Unsafe(u) && forall a :: Ancestor(a, u) && a != u ==> !Unsafe(a)
  }

  /** The flags of `b` describe its chain: tainted exactly when some block on it is unsafe, the first unsafe block is
      the earliest one, and the reasons are the union along the chain. */
  ghost predicate Describes(s: Safety, b: Block) {
    && (s.tainted <==> exists a :: Ancestor(a, b) && Unsafe(a))
    && (s.tainted ==> s.firstUnsafe.Some? && EarliestUnsafe(s.firstUnsafe.value, b))
    && (!s.tainted ==> s == CLEAN)
    && (forall r :: r in s.reasons <==> exists a :: Ancestor(a, b) && r in OwnReasons(a))
  }

  /** Computing a child's flags from its parent's keeps the description exact. */
  lemma ChildIsDescribed(parent: Safety, b: Block, unsafeReasons: seq<string>)
    requires b.Child? && Describes(parent, b.parent) && Named(unsafeReasons) == OwnReasons(b)
    ensures Describes(SafetyForChild(parent, b, unsafeReasons), b)
  {
    var s := SafetyForChild(parent, b, unsafeReasons);
    assert forall a :: Ancestor(a, b) <==> a == b || Ancestor(a, b.parent);
    if s.tainted {
      if parent.tainted {
        assert Ancestor(parent.firstUnsafe.value, b);
      } else {
        assert Ancestor(b, b) && Unsafe(b);
        forall a | Ancestor(a, b) && a != b ensures !Unsafe(a) {}
      }
    }
    forall r ensures r in s.reasons <==> exists a :: Ancestor(a, b) && r in OwnReasons(a) {
      if r in OwnReasons(b) { assert Ancestor(b, b); }
      if r in parent.reasons { var a :| Ancestor(a, b.parent) && r in OwnReasons(a); assert Ancestor(a, b); }
    }
  }

  // ----- The session ----------------------------------------------------------------------------------------

  /** Session taint covers the stored blocks: present exactly when one is unsafe, with exactly their reasons, and its
      first unsafe block is stored and unsafe. */
  ghost predicate Covers(session: Safety, stored: set<Block>) {
    && (session.tainted <==> exists b :: b in stored && Unsafe(b))
    && (session.tainted <==> session.firstUnsafe.Some?)
    && (session.tainted ==> session.firstUnsafe.value in stored && Unsafe(session.firstUnsafe.value))
    && (forall r :: r in session.reasons <==> exists b :: b in stored && r in OwnReasons(b))
  }

  lemma StoringKeepsCover(session: Safety, stored: set<Block>, safety: Safety, b: Block, unsafeReasons: seq<string>)
    requires Covers(session, stored) && Named(unsafeReasons) == OwnReasons(b)
    requires Describes(safety, b) && (forall a :: Ancestor(a, b) && a != b ==> a in stored)
    ensures Covers(if Unsafe(b) then TaintSession(session, safety, unsafeReasons) else session, stored + {b})
  {
  }

  // ----- The loops ------------------------------------------------------------------------------------------

  method HasReason(reasons: seq<string>) returns (has: bool)
    ensures has <==> Named(reasons) != {}
  {
    for i := 0 to |reasons|
      invariant forall j :: 0 <= j < i ==> reasons[j] == ""
    {
      if reasons[i] != "" {
        assert reasons[i] in Named(reasons);
        return true;
      }
    }
    return false;
  }

  /** Empty and repeated reasons are skipped. */
  method AddReasons(known: set<string>, reasons: seq<string>) returns (all: set<string>)
    ensures all == known + Named(reasons)
  {
    all := known;
    for i := 0 to |reasons|
      invariant all == known + Named(reasons[..i])
    {
      assert reasons[..i + 1] == reasons[..i] + [reasons[i]];
      if reasons[i] != "" && reasons[i] !in all { all := all + {reasons[i]}; }
    }
    assert reasons[..|reasons|] == reasons;
  }

  /** `blockSafetyForChild` in the source's steps. */
  method ChildSafety(parent: Safety, b: Block, unsafeReasons: seq<string>) returns (safety: Safety)
    ensures safety == SafetyForChild(parent, b, unsafeReasons)
  {
    hide Named;
    var has := HasReason(unsafeReasons);
    if !parent.tainted && !has { return CLEAN; }
    var first := parent.firstUnsafe;
    if first.None? { first := Some(b); }
    var reasons := AddReasons(parent.reasons, unsafeReasons);
    return Safety(true, first, reasons);
  }

  /** `taintStoredSession` in the source's steps. */
  method StoreSessionTaint(session: Safety, safety: Safety, unsafeReasons: seq<string>) returns (tainted: Safety)
    ensures tainted == TaintSession(session, safety, unsafeReasons)
  {
    hide Named;
    var first := session.firstUnsafe;
    if first.None? { first := safety.firstUnsafe; }
    var reasons := AddReasons(session.reasons, unsafeReasons);
    return Safety(true, first, reasons);
  }
}
