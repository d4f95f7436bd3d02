/** The notification store: a single slot holding the current message and its
    severity. A new notification overwrites the slot; there is no queue. */
module ToastStore {
  import opened Wrappers
  import opened Types

  datatype ToastState = ToastState(message: Option<string>, kind: ToastKind)

  /** Nothing shown; severity `success`. */
  const Initial := ToastState(None, Success)

  /** `showToast(message, kind)`. */
  function Show(s: ToastState, message: string, kind: ToastKind): (r: ToastState)
    ensures r.message == Some(message) && r.kind == kind
  {
    ToastState(Some(message), kind)
  }

  /** `showToast(message)` with the severity argument omitted. */
  function ShowDefault(s: ToastState, message: string): (r: ToastState)
    ensures r == ToastState(Some(message), Success)
  {
    Show(s, message, Success)
  }

  /** `hideToast()`: the message goes, the severity stays. */
  function Hide(s: ToastState): (r: ToastState)
    ensures r.message.None?
    ensures r.kind == s.kind
  {
    s.(message := None)
  }

  /** Feeds a run of notifications into the store, in order. */
  function EmitAll(s: ToastState, ts: seq<Toast>): ToastState
    decreases |ts|
  {
    if ts == [] then s else EmitAll(Show(s, ts[0].message, ts[0].kind), ts[1..])
  }

  /** Last write wins: whatever was shown before, the second call alone decides the slot. */
  lemma LastWriteWins(s: ToastState, a: string, x: ToastKind, b: string)
    ensures ShowDefault(Show(s, a, x), b) == ShowDefault(s, b)
    ensures ShowDefault(Show(s, a, x), b) == ToastState(Some(b), Success)
  {
  }

  /** Hiding twice is hiding once; hiding after showing keeps the shown severity. */
  lemma HideIdempotent(s: ToastState, m: string, k: ToastKind)
    ensures Hide(Hide(s)) == Hide(s)
    ensures Hide(Show(s, m, k)) == ToastState(None, k)
  {
  }

  /** An empty run of notifications leaves the slot alone; after a non-empty
      run the slot holds exactly the last one, whatever it held before:
      nothing is queued behind it. */
  lemma {:induction false} EmitAllKeepsLast(s: ToastState, ts: seq<Toast>)
    ensures ts == [] ==> EmitAll(s, ts) == s
    ensures ts != [] ==> EmitAll(s, ts) == ToastState(Some(ts[|ts| - 1].message), ts[|ts| - 1].kind)
    decreases |ts|
  {
    if |ts| > 1 {
      EmitAllKeepsLast(Show(s, ts[0].message, ts[0].kind), ts[1..]);
    }
  }
}
