/**
 Event groups: tasks wait for bits, and one pass over the waiters unblocks those whose condition holds, with the bits
 to clear collected on the way and cleared at the end.  Calls run with the scheduler suspended, so each is one step; a
 task that timed out takes a second step when it runs again.
 */
module EventGroups {
  import opened Common

  type Task = nat
  type Bits = bv32

  const CLEAR_ON_EXIT: Bits := 0x0100_0000
  const UNBLOCKED: Bits := 0x0200_0000
  const WAIT_ALL: Bits := 0x0400_0000
  const IN_USE: Bits := 0x8000_0000
  const CONTROL: Bits := 0xff00_0000

  // The operations on words are named, so that a proof can look at them only where it must.

  function And(a: Bits, b: Bits): Bits {
    a & b
  }

  function Or(a: Bits, b: Bits): Bits {
    a | b
  }

  function Without(a: Bits, b: Bits): Bits {
    a & !b
  }

  /** An item value without its control bits. */
  function Plain(item: Bits): Bits {
    Without(item, CONTROL)
  }

  predicate WasUnblocked(item: Bits) {
    And(item, UNBLOCKED) != 0
  }

  /** What a task asked for.  Its event item holds the same, packed into one word. */
  datatype Call = Call(bits: Bits, clear: bool, all: bool)

  predicate Legal(b: Bits) {
    And(b, CONTROL) == 0
  }

  predicate LegalCall(c: Call) {
    Legal(c.bits) && c.bits != 0
  }

  /** prvTestWaitCondition */
  predicate Met(bits: Bits, c: Call) {
    if c.all then And(bits, c.bits) == c.bits else And(bits, c.bits) != 0
  }

  /** The control bits of a call. */
  function Flags(clear: bool, all: bool): Bits {
    (if clear then CLEAR_ON_EXIT else 0) | (if all then WAIT_ALL else 0) | IN_USE
  }

  function Pack(c: Call): Bits {
    Or(c.bits, Flags(c.clear, c.all))
  }

  /** How xEventGroupSetBits reads an event item. */
  function Unpack(item: Bits): Call {
    var control := And(item, CONTROL);
    Call(Plain(item), And(control, CLEAR_ON_EXIT) != 0, And(control, WAIT_ALL) != 0)
  }

  /** The value stored in the event item of a task unblocked by bits. */
  function Handed(bits: Bits): Bits {
    Or(bits, UNBLOCKED | IN_USE)
  }

  /** A group: its bits, the tasks on its list, and the event item value and the call of every task that has entered a
      wait and not returned from it. */
  datatype Group = Group(bits: Bits, waiters: seq<Task>, items: map<Task, Bits>, calls: map<Task, Call>)

  function CallOf(items: map<Task, Bits>, t: Task): Call {
    Unpack(if t in items then items[t] else 0)
  }

  /** The waiters left after a pass that shows `bits` to each, the bits to clear, and the items changed. */
  function Left(ws: seq<Task>, items: map<Task, Bits>, bits: Bits): seq<Task> {
    if ws == [] then []
    else if Met(bits, CallOf(items, ws[0])) then Left(ws[1..], items, bits)
    else [ws[0]] + Left(ws[1..], items, bits)
  }

  function ToClear(ws: seq<Task>, items: map<Task, Bits>, bits: Bits): Bits {
    if ws == [] then 0
    else
      var c := CallOf(items, ws[0]);
      Or(if Met(bits, c) && c.clear then c.bits else 0, ToClear(ws[1..], items, bits))
  }

  function HandOut(ws: seq<Task>, items: map<Task, Bits>, bits: Bits): map<Task, Bits> {
    map t | t in items :: if t in ws && Met(bits, CallOf(items, t)) then Handed(bits) else items[t]
  }

  /** xEventGroupSetBits */
  function SetBits(g: Group, added: Bits): Group {
    var b := Or(g.bits, added);
    g.(bits := Without(b, ToClear(g.waiters, g.items, b)), waiters := Left(g.waiters, g.items, b),
       items := HandOut(g.waiters, g.items, b))
  }

  /** xEventGroupClearBits */
  function ClearBits(g: Group, clear: Bits): Group {
    g.(bits := Without(g.bits, clear))
  }

  /** vTaskPlaceOnUnorderedEventList */
  function Enlist(g: Group, t: Task, c: Call): Group {
    g.(waiters := g.waiters + [t], items := g.items[t := Pack(c)], calls := g.calls[t := c])
  }

  function ClearIf(g: Group, c: Call): Group {
    if c.clear then g.(bits := Without(g.bits, c.bits)) else g
  }

  /** xEventGroupWaitBits, up to the point where the task blocks or returns. */
  function WaitBits(g: Group, t: Task, c: Call, mayBlock: bool): Group {
    if Met(g.bits, c) then ClearIf(g, c) else if mayBlock then Enlist(g, t, c) else g
  }

  /** xEventGroupSync, likewise. */
  function Sync(g: Group, t: Task, added: Bits, bits: Bits, mayBlock: bool): Group {
    var c := Call(bits, true, true);
    var n := SetBits(g, added);
    if Met(Or(g.bits, added), c) then ClearIf(n, c) else if mayBlock then Enlist(n, t, c) else n
  }

  /** The rest of either call, once the task runs again: the value handed to it, or after a time-out the current bits. */
  function Collect(g: Group, t: Task): Group
    requires t in g.items && t in g.calls
  {
    var c := g.calls[t];
    var n := g.(items := g.items - {t}, calls := g.calls - {t});
    if !WasUnblocked(g.items[t]) && Met(g.bits, c) then ClearIf(n, c) else n
  }

  function Collected(g: Group, t: Task): Bits
    requires t in g.items
  {
    Plain(if WasUnblocked(g.items[t]) then g.items[t] else g.bits)
  }

  datatype Action =
    | Set(bits: Bits)
    | Clear(bits: Bits)
    | Wait(t: Task, call: Call, mayBlock: bool)
    | Rendezvous(t: Task, added: Bits, bits: Bits, mayBlock: bool)
    | TimeOut(t: Task)
    | Return(t: Task)

  predicate Enabled(g: Group, a: Action) {
    match a
    case Set(b) => Legal(b)
    case Clear(b) => Legal(b)
    case Wait(t, c, _) => t !in g.calls && LegalCall(c)
    case Rendezvous(t, s, b, _) => t !in g.calls && Legal(s) && Legal(b) && b != 0
    case TimeOut(t) => t in g.waiters
    case Return(t) => t in g.calls && t in g.items && t !in g.waiters
  }

  function Next(g: Group, a: Action): Group {
    if !Enabled(g, a) then g else
    match a
    case Set(b) => SetBits(g, b)
    case Clear(b) => ClearBits(g, b)
    case Wait(t, c, mayBlock) => WaitBits(g, t, c, mayBlock)
    case Rendezvous(t, s, b, mayBlock) => Sync(g, t, s, b, mayBlock)
    case TimeOut(t) => g.(waiters := Drop(g.waiters, t))
    case Return(t) => Collect(g, t)
  }

  function Run(g: Group, actions: seq<Action>): Group {
    if actions == [] then g else Next(Run(g, actions[..|actions| - 1]), actions[|actions| - 1])
  }

  predicate Initial(g: Group) {
    g == Group(0, [], map[], map[])
  }

  // ---- The invariant.

  /** A task that is off the list timed out, or was handed a value that meets its condition. */
  predicate Released(item: Bits, c: Call) {
    item == Pack(c) || (item == Handed(Plain(item)) && Met(Plain(item), c))
  }

  ghost predicate Inv(g: Group) {
    && Legal(g.bits) && g.items.Keys == g.calls.Keys
    && Distinct(g.waiters) && (forall t :: t in g.waiters ==> t in g.calls)
    && (forall t :: t in g.calls ==> LegalCall(g.calls[t]) && Released(g.items[t], g.calls[t]))
    // nobody on the list has what it waits for
    && (forall t :: t in g.waiters ==> g.items[t] == Pack(g.calls[t]) && !Met(g.bits, g.calls[t]))
  }
}
