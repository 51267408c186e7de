/** Which nodes a state filter lets through, computed in three places: the WebAssembly kernel, its
    JavaScript fallback, and the bitmaps built by the snapshot encoder. */
module StateMask {
  import opened MachineInts

  datatype Class = Root | Affected | Healthy | Unknown

  function ClassOf(state: u8): Class {
    if state == 0 then Root else if state == 1 then Affected else if state == 2 then Healthy else Unknown
  }

  // ----- the kernel

  function MaskByte(state: u8, root: u8, affected: u8, healthy: u8, unknown: u8): u8 {
    var flag := match ClassOf(state)
      case Root => root
      case Affected => affected
      case Healthy => healthy
      case Unknown => unknown;
    if flag != 0 then 1 else 0
  }

  method ComputeStateMask(states: array?<u8>, root: u8, affected: u8, healthy: u8, unknown: u8, out: array?<u8>)
    requires states != null && out != null ==> states != out && states.Length == out.Length
    modifies out
    ensures states == null && out != null ==> out[..] == old(out[..])
    ensures states != null && out != null ==>
              forall i :: 0 <= i < out.Length ==> out[i] == MaskByte(states[i], root, affected, healthy, unknown)
  {
    if states == null || out == null {
      return;
    }
    for idx := 0 to states.Length
      invariant forall i :: 0 <= i < idx ==> out[i] == MaskByte(states[i], root, affected, healthy, unknown)
      invariant states[..] == old(states[..])
    {
      var state := states[idx];
      var enabled;
      if state == 0 {
        enabled := root != 0;
      } else if state == 1 {
        enabled := affected != 0;
      } else if state == 2 {
        enabled := healthy != 0;
      } else {
        enabled := unknown != 0;
      }
      out[idx] := if enabled then 1 else 0;
    }
  }

  // ----- the two JavaScript paths

  /** The filter switches by name; a missing one is undefined and so off. */
  type Filters = map<string, bool>

  predicate On(filters: Filters, name: string) {
    name in filters && filters[name]
  }

  function Flag(filters: Filters, name: string): u8 {
    if On(filters, name) then 1 else 0
  }

  /** What the engine hands back: the kernel's bytes for the four switches. */
  function EngineMask(states: seq<u8>, filters: Filters): seq<u8> {
    seq(|states|, i requires 0 <= i < |states| =>
      MaskByte(states[i], Flag(filters, "root_cause"), Flag(filters, "affected"),
               Flag(filters, "healthy"), Flag(filters, "unknown")))
  }

  function SwitchName(state: u8): string {
    if state == 0 then "root_cause" else if state == 1 then "affected" else if state == 2 then "healthy" else "unknown"
  }

  function FallbackMask(states: seq<u8>, filters: Filters): seq<u8> {
    seq(|states|, i requires 0 <= i < |states| => Flag(filters, SwitchName(states[i])))
  }

  /** The mask of the nodes' states; `engineRuns` says whether the WebAssembly call went through. */
  function VisibilityMask(nodeStates: seq<nat>, filters: Filters, engineRuns: bool): seq<u8> {
    var states := seq(|nodeStates|, i requires 0 <= i < |nodeStates| => ToU8(nodeStates[i]));
    if engineRuns then EngineMask(states, filters) else FallbackMask(states, filters)
  }

  // ----- the bitmaps

  /** The indexes of one class among the first `n`, cut down to 32 bits. */
  function BitmapTo(states: seq<u8>, n: nat, c: Class): set<u32>
    requires n <= |states|
  {
    if n == 0 then {}
    else BitmapTo(states, n - 1, c) + (if ClassOf(states[n - 1]) == c then {ToU32(n - 1)} else {})
  }

  function Bitmap(states: seq<u8>, c: Class): set<u32> {
    BitmapTo(states, |states|, c)
  }

  lemma {:induction false} BitmapMembers(states: seq<u8>, n: nat, c: Class, x: u32)
    requires n <= |states|
    ensures x in BitmapTo(states, n, c) <==> exists i :: 0 <= i < n && ClassOf(states[i]) == c && x == ToU32(i)
  {
    if n > 0 {
      BitmapMembers(states, n - 1, c, x);
    }
  }

  method BuildBitmaps(states: seq<u8>)
    returns (root: set<u32>, affected: set<u32>, healthy: set<u32>, unknown: set<u32>, counts: (u32, u32, u32, u32))
    ensures root == Bitmap(states, Root) && affected == Bitmap(states, Affected)
    ensures healthy == Bitmap(states, Healthy) && unknown == Bitmap(states, Unknown)
    ensures counts == (ToU32(|root|), ToU32(|affected|), ToU32(|healthy|), ToU32(|unknown|))
  {
    root, affected, healthy, unknown := {}, {}, {}, {};
    for idx := 0 to |states|
      invariant root == BitmapTo(states, idx, Root) && affected == BitmapTo(states, idx, Affected)
      invariant healthy == BitmapTo(states, idx, Healthy) && unknown == BitmapTo(states, idx, Unknown)
    {
      var value := ToU32(idx);
      match states[idx]
      case 0 => root := root + {value};
      case 1 => affected := affected + {value};
      case 2 => healthy := healthy + {value};
      case _ => unknown := unknown + {value};
    }
    counts := (ToU32(|root|), ToU32(|affected|), ToU32(|healthy|), ToU32(|unknown|));
  }

  // ----- they agree, and the bitmaps are a partition

  predicate ClassOn(filters: Filters, c: Class) {
    match c
    case Root => On(filters, "root_cause")
    case Affected => On(filters, "affected")
    case Healthy => On(filters, "healthy")
    case Unknown => On(filters, "unknown")
  }

  /** The indexes in some bitmap whose switch is on. */
  function EnabledIndexes(states: seq<u8>, filters: Filters): set<u32> {
    (if ClassOn(filters, Root) then Bitmap(states, Root) else {}) +
    (if ClassOn(filters, Affected) then Bitmap(states, Affected) else {}) +
    (if ClassOn(filters, Healthy) then Bitmap(states, Healthy) else {}) +
    (if ClassOn(filters, Unknown) then Bitmap(states, Unknown) else {})
  }

  lemma {:induction false} InItsBitmapOnly(states: seq<u8>, i: nat, c: Class)
    requires i < |states| <= U32_SPAN
    ensures ToU32(i) in Bitmap(states, c) <==> ClassOf(states[i]) == c
  {
    BitmapMembers(states, |states|, c, ToU32(i));
    if ToU32(i) in Bitmap(states, c) {
      var j :| 0 <= j < |states| && ClassOf(states[j]) == c && ToU32(i) == ToU32(j);
    }
  }

  /** Main result: for every filter setting kernel and fallback agree, and so do the enabled bitmaps as long as
      the indexes fit in 32 bits. */
  lemma {:induction false} MasksAgree(states: seq<u8>, filters: Filters)
    ensures EngineMask(states, filters) == FallbackMask(states, filters)
    ensures |states| <= U32_SPAN ==> forall i :: 0 <= i < |states| ==>
              (EngineMask(states, filters)[i] == 1 <==> ToU32(i) in EnabledIndexes(states, filters))
  {
    if |states| <= U32_SPAN {
      forall i | 0 <= i < |states|
        ensures EngineMask(states, filters)[i] == 1 <==> ToU32(i) in EnabledIndexes(states, filters)
      {
        InItsBitmapOnly(states, i, Root);
        InItsBitmapOnly(states, i, Affected);
        InItsBitmapOnly(states, i, Healthy);
        InItsBitmapOnly(states, i, Unknown);
      }
    }
  }

  ghost predicate PairwiseDisjoint(states: seq<u8>) {
    forall c, d: Class :: c != d ==> Bitmap(states, c) !! Bitmap(states, d)
  }

  function TotalSizeTo(states: seq<u8>, n: nat): nat
    requires n <= |states|
  {
    |BitmapTo(states, n, Root)| + |BitmapTo(states, n, Affected)| +
    |BitmapTo(states, n, Healthy)| + |BitmapTo(states, n, Unknown)|
  }

  /** How many of the first `n` nodes are in the class. */
  function CountTo(states: seq<u8>, n: nat, c: Class): nat
    requires n <= |states|
  {
    if n == 0 then 0 else CountTo(states, n - 1, c) + (if ClassOf(states[n - 1]) == c then 1 else 0)
  }

  lemma {:induction false} NotYetIn(states: seq<u8>, n: nat, c: Class)
    requires n < |states| <= U32_SPAN
    ensures ToU32(n) !in BitmapTo(states, n, c)
  {
    BitmapMembers(states, n, c, ToU32(n));
    forall i | 0 <= i < n ensures ToU32(i) != ToU32(n) {
      assert ToU32(i) as nat == i && ToU32(n) as nat == n;
    }
  }

  lemma {:induction false} BitmapSize(states: seq<u8>, n: nat, c: Class)
    requires n <= |states| <= U32_SPAN
    ensures |BitmapTo(states, n, c)| == CountTo(states, n, c)
  {
    if n > 0 {
      var before := BitmapTo(states, n - 1, c);
      BitmapSize(states, n - 1, c);
      NotYetIn(states, n - 1, c);
      assert |before + {ToU32(n - 1)}| == |before| + 1;
    }
  }

  lemma {:induction false} CountsAddUp(states: seq<u8>, n: nat)
    requires n <= |states|
    ensures CountTo(states, n, Root) + CountTo(states, n, Affected)
          + CountTo(states, n, Healthy) + CountTo(states, n, Unknown) == n
  {
    if n > 0 {
      CountsAddUp(states, n - 1);
    }
  }

  lemma {:induction false} SizesAddUp(states: seq<u8>, n: nat)
    requires n <= |states| <= U32_SPAN
    ensures TotalSizeTo(states, n) == n
  {
    BitmapSize(states, n, Root);
    BitmapSize(states, n, Affected);
    BitmapSize(states, n, Healthy);
    BitmapSize(states, n, Unknown);
    CountsAddUp(states, n);
  }

  lemma {:induction false} AtMostSpan(s: set<u32>, bound: nat)
    requires bound <= U32_SPAN && forall x :: x in s ==> x as nat < bound
    ensures |s| <= bound
  {
    if bound == 0 {
      assert s == {};
    } else {
      AtMostSpan(s - {(bound - 1) as u32}, bound - 1);
    }
  }

  /** Main result: the bitmaps are disjoint and account for every node exactly when the indexes fit in
      32 bits. */
  lemma {:induction false} BitmapsPartition(states: seq<u8>)
    ensures PairwiseDisjoint(states) && TotalSizeTo(states, |states|) == |states| <==> |states| <= U32_SPAN
  {
    if |states| <= U32_SPAN {
      SizesAddUp(states, |states|);
      forall c, d: Class | c != d ensures Bitmap(states, c) !! Bitmap(states, d) {
        forall x | x in Bitmap(states, c) ensures x !in Bitmap(states, d) {
          BitmapMembers(states, |states|, c, x);
          var i :| 0 <= i < |states| && ClassOf(states[i]) == c && x == ToU32(i);
          InItsBitmapOnly(states, i, d);
        }
      }
    } else if PairwiseDisjoint(states) {
      var all := Bitmap(states, Root) + Bitmap(states, Affected) + Bitmap(states, Healthy) + Bitmap(states, Unknown);
      assert |all| == TotalSizeTo(states, |states|);
      AtMostSpan(all, U32_SPAN);
    }
  }
}
