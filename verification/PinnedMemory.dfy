/** Workflow memory pins: a structured list, its legacy mirror, and the events that tell how they came about. */
module PinnedMemory {
  import opened Wrappers

  // ------------------------------------------------------------------------ normalisation

  /** The characters Python's `strip` removes: the ASCII blanks and separators and the Unicode spaces. */
  predicate IsSpace(c: char) {
    || c == ' ' || '\t' <= c <= '\r' || '\U{1C}' <= c <= '\U{1F}'
    || c == '\U{85}' || c == '\U{A0}' || c == '\U{1680}' || '\U{2000}' <= c <= '\U{200A}'
    || c == '\U{2028}' || c == '\U{2029}' || c == '\U{202F}' || c == '\U{205F}' || c == '\U{3000}'
  }

  /** By code point. */
  lemma SpacesAre(c: char)
    ensures IsSpace(c) <==>
            var code := c as int;
            || 9 <= code <= 13 || 28 <= code <= 32 || code in {133, 160, 5760, 8232, 8233, 8239, 8287, 12288} || 8192 <= code <= 8202
  {
  }

  function StripLeft(text: string): string {
    if text != "" && IsSpace(text[0]) then StripLeft(text[1..]) else text
  }

  function StripRight(text: string): string {
    if text != "" && IsSpace(text[|text| - 1]) then StripRight(text[..|text| - 1]) else text
  }

  function Strip(text: string): string {
    StripRight(StripLeft(text))
  }

  /** Trimmed and not blank. */
  predicate Clean(id: string) {
    id != "" && !IsSpace(id[0]) && !IsSpace(id[|id| - 1])
  }

  predicate AllClean(ids: seq<string>) {
    forall id :: id in ids ==> Clean(id)
  }

  predicate Unique(ids: seq<string>) {
    forall i, j :: 0 <= i < j < |ids| ==> ids[i] != ids[j]
  }

  /** `dict.fromkeys`: the first occurrence of each value. */
  function Dedupe(ids: seq<string>): (kept: seq<string>)
    ensures forall id :: id in kept <==> id in ids
  {
    if ids == [] then []
    else
      var n := |ids| - 1;
      if ids[n] in ids[..n] then Dedupe(ids[..n]) else Dedupe(ids[..n]) + [ids[n]]
  }

  function StripAll(ids: seq<string>): seq<string> {
    if ids == [] then []
    else
      var n := |ids| - 1;
      StripAll(ids[..n]) + if Strip(ids[n]) == "" then [] else [Strip(ids[n])]
  }

  function Normalize(ids: seq<string>): seq<string> {
    Dedupe(StripAll(ids))
  }

  lemma {:induction false} StripLeftStarts(text: string)
    ensures StripLeft(text) == "" || !IsSpace(StripLeft(text)[0])
    ensures text != "" && !IsSpace(text[|text| - 1]) ==> StripLeft(text) != "" && StripLeft(text)[|StripLeft(text)| - 1] == text[|text| - 1]
  {
    if text != "" && IsSpace(text[0]) {
      StripLeftStarts(text[1..]);
    }
  }

  lemma {:induction false} StripRightEnds(text: string)
    ensures StripRight(text) == "" || (!IsSpace(StripRight(text)[|StripRight(text)| - 1]) && StripRight(text)[0] == text[0])
  {
    if text != "" && IsSpace(text[|text| - 1]) {
      StripRightEnds(text[..|text| - 1]);
    }
  }

  /** Stripping yields a clean text or nothing, and leaves exactly the clean texts as they are. */
  lemma StripCleans(text: string)
    ensures Strip(text) == "" || Clean(Strip(text))
    ensures Clean(text) <==> text != "" && Strip(text) == text
  {
    StripLeftStarts(text);
    StripRightEnds(StripLeft(text));
  }

  lemma {:induction false} DedupeUnique(ids: seq<string>)
    ensures Unique(Dedupe(ids))
    ensures Unique(ids) ==> Dedupe(ids) == ids
  {
    if ids != [] {
      var n := |ids| - 1;
      DedupeUnique(ids[..n]);
      var kept := Dedupe(ids[..n]);
      assert forall k :: 0 <= k < |kept| ==> kept[k] in kept;
      if Unique(ids) {
        assert ids[n] !in ids[..n];
      }
    }
  }

  lemma {:induction false} StripAllCleans(ids: seq<string>)
    ensures AllClean(StripAll(ids))
  {
    if ids != [] {
      StripCleans(ids[|ids| - 1]);
      hide Strip, Clean;
      StripAllCleans(ids[..|ids| - 1]);
    }
  }

  lemma CleanParts(ids: seq<string>, n: nat)
    requires AllClean(ids) && n < |ids|
    ensures AllClean(ids[..n]) && Strip(ids[n]) == ids[n] != ""
  {
    hide Strip, Clean;
    assert ids[n] in ids;
    StripCleans(ids[n]);
    forall id | id in ids[..n] ensures Clean(id) {
      assert id in ids;
    }
  }

  lemma {:induction false} StripAllKeeps(ids: seq<string>)
    requires AllClean(ids)
    ensures StripAll(ids) == ids
  {
    hide AllClean, Strip;
    if ids != [] {
      var n := |ids| - 1;
      CleanParts(ids, n);
      StripAllKeeps(ids[..n]);
      assert ids == ids[..n] + [ids[n]];
    }
  }

  predicate Normal(ids: seq<string>) {
    AllClean(ids) && Unique(ids)
  }

  lemma NormalizeNormal(ids: seq<string>)
    ensures Normal(Normalize(ids))
    ensures Normal(ids) ==> Normalize(ids) == ids
  {
    StripAllCleans(ids);
    DedupeUnique(StripAll(ids));
    if Normal(ids) {
      StripAllKeeps(ids);
    }
  }

  // ------------------------------------------------------- normalisation, told from the texts

  ghost predicate Blank(text: string) {
    forall k :: 0 <= k < |text| ==> IsSpace(text[k])
  }

  /** The core of a text: what is left between the blanks around it, if anything is. */
  ghost predicate Trims(text: string, core: string) {
    Clean(core) && exists before, after :: text == before + core + after && Blank(before) && Blank(after)
  }

  lemma {:induction false} StripLeftSkips(before: string, rest: string)
    requires Blank(before) && (rest == "" || !IsSpace(rest[0]))
    ensures StripLeft(before + rest) == rest
  {
    hide IsSpace;
    if before == "" {
      assert before + rest == rest;
    } else {
      assert (before + rest)[1..] == before[1..] + rest;
      StripLeftSkips(before[1..], rest);
    }
  }

  lemma {:induction false} StripRightSkips(rest: string, after: string)
    requires Blank(after) && (rest == "" || !IsSpace(rest[|rest| - 1]))
    ensures StripRight(rest + after) == rest
  {
    hide IsSpace;
    if after == "" {
      assert rest + after == rest;
    } else {
      var n := |after| - 1;
      assert (rest + after)[..|rest| + n] == rest + after[..n];
      StripRightSkips(rest, after[..n]);
    }
  }

  lemma {:induction false} StripLeftSplits(text: string) returns (before: string)
    ensures Blank(before) && text == before + StripLeft(text)
  {
    hide IsSpace;
    if text != "" && IsSpace(text[0]) {
      var rest := StripLeftSplits(text[1..]);
      before := [text[0]] + rest;
    } else {
      before := "";
    }
  }

  lemma {:induction false} StripRightSplits(text: string) returns (after: string)
    ensures Blank(after) && text == StripRight(text) + after
  {
    hide IsSpace;
    if text != "" && IsSpace(text[|text| - 1]) {
      var rest := StripRightSplits(text[..|text| - 1]);
      after := rest + [text[|text| - 1]];
    } else {
      after := "";
    }
  }

  /** Stripping finds the core of a text exactly, and nothing exactly in a blank one. */
  lemma StripIsExact(text: string, core: string)
    ensures Trims(text, core) <==> core != "" && Strip(text) == core
    ensures Strip(text) == "" <==> Blank(text)
  {
    hide IsSpace;
    var before := StripLeftSplits(text);
    var after := StripRightSplits(StripLeft(text));
    StripCleans(text);
    assert text == before + Strip(text) + after;
    if Trims(text, core) {
      var a, b :| text == a + core + b && Blank(a) && Blank(b);
      assert a + core + b == a + (core + b) && (core + b)[0] == core[0];
      StripLeftSkips(a, core + b);
      StripRightSkips(core, b);
    }
    if Blank(text) {
      assert text + "" == text;
      StripLeftSkips(text, "");
    }
  }

  /** The first text of a list with this core. */
  ghost predicate FirstTrimmed(ids: seq<string>, p: int, core: string) {
    0 <= p < |ids| && Trims(ids[p], core) && forall k :: 0 <= k < p ==> !Trims(ids[k], core)
  }

  lemma NormalizeOfMore(ids: seq<string>)
    requires ids != []
    ensures
      var n := |ids| - 1;
      var core, earlier := Strip(ids[n]), Normalize(ids[..n]);
      Normalize(ids) == if core == "" || core in earlier then earlier else earlier + [core]
  {
    hide Strip;
    var n := |ids| - 1;
    var all := StripAll(ids[..n]);
    assert all + [] == all;
    assert (all + [Strip(ids[n])])[..|all|] == all;
  }

  lemma FirstTrimmedOfMore(ids: seq<string>, p: int, core: string)
    requires ids != []
    ensures
      var n := |ids| - 1;
      && (p != n ==> (FirstTrimmed(ids, p, core) <==> FirstTrimmed(ids[..n], p, core)))
      && (FirstTrimmed(ids, n, core) <==> Trims(ids[n], core) && forall k :: !FirstTrimmed(ids[..n], k, core))
  {
    hide Trims;
    var n := |ids| - 1;
    if Trims(ids[n], core) && !FirstTrimmed(ids, n, core) {
      var k :| 0 <= k < n && Trims(ids[k], core);
      var first := FirstOf(ids[..n], k, core);
    }
  }

  lemma {:induction false} FirstOf(ids: seq<string>, k: nat, core: string) returns (first: nat)
    requires k < |ids| && Trims(ids[k], core)
    ensures FirstTrimmed(ids, first, core)
    decreases k
  {
    hide Trims;
    if j :| 0 <= j < k && Trims(ids[j], core) {
      first := FirstOf(ids, j, core);
    } else {
      first := k;
    }
  }

  lemma {:induction false} NormalizeHolds(ids: seq<string>, core: string)
    ensures core in Normalize(ids) <==> exists p :: FirstTrimmed(ids, p, core)
  {
    if ids != [] {
      var n := |ids| - 1;
      NormalizeOfMore(ids);
      NormalizeHolds(ids[..n], core);
      StripIsExact(ids[n], core);
      forall p ensures p != n ==> (FirstTrimmed(ids, p, core) <==> FirstTrimmed(ids[..n], p, core)) {
        FirstTrimmedOfMore(ids, p, core);
      }
      FirstTrimmedOfMore(ids, n, core);
      hide Trims, FirstTrimmed, Normalize, Strip;
    }
  }

  ghost predicate AppearsBefore(ids: seq<string>, a: string, b: string) {
    exists p, q :: p < q && FirstTrimmed(ids, p, a) && FirstTrimmed(ids, q, b)
  }

  lemma AppearsBeforeOfMore(ids: seq<string>, a: string, b: string)
    requires ids != []
    ensures AppearsBefore(ids[..|ids| - 1], a, b) ==> AppearsBefore(ids, a, b)
    ensures a in Normalize(ids[..|ids| - 1]) && FirstTrimmed(ids, |ids| - 1, b) ==> AppearsBefore(ids, a, b)
  {
    var n := |ids| - 1;
    NormalizeHolds(ids[..n], a);
    hide Normalize, Trims;
    if p, q :| p < q && FirstTrimmed(ids[..n], p, a) && FirstTrimmed(ids[..n], q, b) {
      FirstTrimmedOfMore(ids, p, a);
      FirstTrimmedOfMore(ids, q, b);
    }
    if p :| FirstTrimmed(ids[..n], p, a) {
      FirstTrimmedOfMore(ids, p, a);
    }
  }

  lemma LastTrimmed(ids: seq<string>)
    requires ids != []
    ensures
      var n := |ids| - 1;
      var core, earlier := Strip(ids[n]), Normalize(ids[..n]);
      core != "" && core !in earlier ==> FirstTrimmed(ids, n, core)
  {
    var n := |ids| - 1;
    NormalizeHolds(ids[..n], Strip(ids[n]));
    FirstTrimmedOfMore(ids, n, Strip(ids[n]));
    StripIsExact(ids[n], Strip(ids[n]));
    hide Trims, FirstTrimmed, Normalize, Strip;
  }

  lemma {:induction false} NormalizeOrders(ids: seq<string>, i: nat, j: nat)
    requires i < j < |Normalize(ids)|
    ensures AppearsBefore(ids, Normalize(ids)[i], Normalize(ids)[j])
  {
    hide FirstTrimmed, Normalize, Strip, AppearsBefore;
    assert ids != [] by { assert Normalize([]) == [] by { NormalizeNormal([]); } }
    var n := |ids| - 1;
    var kept, earlier := Normalize(ids), Normalize(ids[..n]);
    NormalizeOfMore(ids);
    AppearsBeforeOfMore(ids, kept[i], kept[j]);
    if j < |earlier| {
      NormalizeOrders(ids[..n], i, j);
    } else {
      LastTrimmed(ids);
      assert earlier[i] in earlier;
    }
  }

  /** A normalised list holds the core of every text that has one, once, in the order of their first appearance. */
  lemma NormalizeTells(ids: seq<string>)
    ensures Unique(Normalize(ids))
    ensures forall core :: core in Normalize(ids) <==> exists p :: FirstTrimmed(ids, p, core)
    ensures
      var kept := Normalize(ids);
      forall i, j :: 0 <= i < j < |kept| ==> AppearsBefore(ids, kept[i], kept[j])
  {
    hide FirstTrimmed, Normalize, AppearsBefore;
    NormalizeNormal(ids);
    forall core ensures core in Normalize(ids) <==> exists p :: FirstTrimmed(ids, p, core) {
      NormalizeHolds(ids, core);
    }
    forall i, j | 0 <= i < j < |Normalize(ids)| ensures AppearsBefore(ids, Normalize(ids)[i], Normalize(ids)[j]) {
      NormalizeOrders(ids, i, j);
    }
  }

  // -------------------------------------------------------------------------------- state

  /** One logged change, with the pinned identifiers as they were afterwards. */
  datatype Event = Event(pinned: bool, id: string, after: seq<string>)

  /** The identifiers on the root task, written twice, and its event log. */
  datatype State = State(structured: Option<seq<string>>, mirror: seq<string>, events: seq<Event>)

  /** The structured list, or the mirror when the list comes out empty. */
  function PinnedIds(s: State): seq<string> {
    var ids := if s.structured.Some? then Normalize(s.structured.value) else [];
    if ids != [] then ids else Normalize(s.mirror)
  }

  /** The memories that resolve for the agent; None when there is no memory service to ask. */
  type Active = Option<set<string>>

  predicate Resolves(active: Active, ids: seq<string>) {
    active.Some? ==> forall id :: id in ids ==> id in active.value
  }

  function Minus(ids: seq<string>, drop: seq<string>): (rest: seq<string>)
    ensures forall id :: id in rest <==> id in ids && id !in drop
  {
    if ids == [] then []
    else
      var n := |ids| - 1;
      Minus(ids[..n], drop) + if ids[n] in drop then [] else [ids[n]]
  }

  function Write(s: State, ids: seq<string>): State {
    s.(structured := Some(ids), mirror := ids)
  }

  function Log(s: State, pinned: bool, id: string): State {
    s.(events := s.events + [Event(pinned, id, PinnedIds(s))])
  }

  /** Pinning one memory; nothing changes unless every identifier of the new list resolves. */
  function Pin(s: State, id: string, active: Active): Result<State, State> {
    var ids := Dedupe(PinnedIds(s) + [id]);
    if !Resolves(active, ids) then Err(s)
    else if id in PinnedIds(s) then Ok(Write(s, ids))
    else Ok(Log(Write(s, ids), true, id))
  }

  function Unpin(s: State, id: string, active: Active): Result<State, State> {
    var ids := Minus(PinnedIds(s), [id]);
    if !Resolves(active, ids) then Err(s)
    else if id in PinnedIds(s) then Ok(Log(Write(s, ids), false, id))
    else Ok(Write(s, ids))
  }

  /** Unpins, then pins, one by one; the first failure stops the batch where it is. */
  function UnpinAll(s: State, ids: seq<string>, active: Active): Result<State, State> {
    if ids == [] then Ok(s)
    else
      match UnpinAll(s, ids[..|ids| - 1], active)
      case Err(stuck) => Err(stuck)
      case Ok(next) => Unpin(next, ids[|ids| - 1], active)
  }

  function PinAll(s: State, ids: seq<string>, active: Active): Result<State, State> {
    if ids == [] then Ok(s)
    else
      match PinAll(s, ids[..|ids| - 1], active)
      case Err(stuck) => Err(stuck)
      case Ok(next) => Pin(next, ids[|ids| - 1], active)
  }

  function Batch(s: State, unpins: seq<string>, pins: seq<string>, active: Active): Result<State, State> {
    match UnpinAll(s, Dedupe(unpins), active)
    case Err(stuck) => Err(stuck)
    case Ok(next) => PinAll(next, Dedupe(pins), active)
  }

  function Outcome(r: Result<State, State>): State {
    match r
    case Ok(s) => s
    case Err(s) => s
  }

  class WorkflowMemory {
    var structured: Option<seq<string>>
    var mirror: seq<string>
    var events: seq<Event>

    function Snapshot(): State
      reads this
    {
      State(structured, mirror, events)
    }

    constructor (structured: Option<seq<string>>, mirror: seq<string>)
      ensures Snapshot() == State(structured, mirror, [])
    {
      this.structured, this.mirror, events := structured, mirror, [];
    }

    /** Writes both places, if the identifiers resolve. */
    method UpdateRootWorkflowMemory(ids: seq<string>, active: Active) returns (ok: bool)
      modifies this`structured, this`mirror
      ensures ok <==> Resolves(active, ids)
      ensures Snapshot() == if ok then Write(old(Snapshot()), ids) else old(Snapshot())
    {
      if !Resolves(active, ids) {
        return false;
      }
      structured := Some(ids);
      mirror := ids;
      ok := true;
    }

    method PinWorkflowMemory(id: string, active: Active) returns (ok: bool)
      modifies this
      ensures ok <==> Pin(old(Snapshot()), id, active).Ok?
      ensures Snapshot() == Outcome(Pin(old(Snapshot()), id, active))
    {
      var previous := PinnedIds(Snapshot());
      hide Dedupe, Normalize, Resolves;
      ok := UpdateRootWorkflowMemory(Dedupe(previous + [id]), active);
      if ok && id !in previous {
        events := events + [Event(true, id, PinnedIds(Snapshot()))];
      }
    }

    method UnpinWorkflowMemory(id: string, active: Active) returns (ok: bool)
      modifies this
      ensures ok <==> Unpin(old(Snapshot()), id, active).Ok?
      ensures Snapshot() == Outcome(Unpin(old(Snapshot()), id, active))
    {
      var previous := PinnedIds(Snapshot());
      hide Minus, Normalize, Resolves;
      ok := UpdateRootWorkflowMemory(Minus(previous, [id]), active);
      if ok && id in previous {
        events := events + [Event(false, id, PinnedIds(Snapshot()))];
      }
    }

    method ApplyWorkflowMemoryUpdates(pins: seq<string>, unpins: seq<string>, active: Active) returns (ok: bool)
      modifies this
      ensures ok <==> Batch(old(Snapshot()), unpins, pins, active).Ok?
      ensures Snapshot() == Outcome(Batch(old(Snapshot()), unpins, pins, active))
    {
      ghost var s := Snapshot();
      var toUnpin, toPin := Dedupe(unpins), Dedupe(pins);
      hide Dedupe, Pin, Unpin;
      for i := 0 to |toUnpin|
        invariant UnpinAll(s, toUnpin[..i], active) == Ok(Snapshot())
      {
        assert toUnpin[..i + 1][..i] == toUnpin[..i];
        ok := UnpinWorkflowMemory(toUnpin[i], active);
        if !ok {
          UnpinStuck(s, toUnpin, i + 1, active);
          return;
        }
      }
      assert toUnpin[..|toUnpin|] == toUnpin;
      ghost var t := Snapshot();
      for i := 0 to |toPin|
        invariant PinAll(t, toPin[..i], active) == Ok(Snapshot())
      {
        assert toPin[..i + 1][..i] == toPin[..i];
        ok := PinWorkflowMemory(toPin[i], active);
        if !ok {
          PinStuck(t, toPin, i + 1, active);
          return;
        }
      }
      assert toPin[..|toPin|] == toPin;
      ok := true;
    }
  }

  lemma {:induction false} UnpinStuck(s: State, ids: seq<string>, n: nat, active: Active)
    requires n <= |ids| && UnpinAll(s, ids[..n], active).Err?
    ensures UnpinAll(s, ids, active) == UnpinAll(s, ids[..n], active)
    decreases |ids| - n
  {
    if n < |ids| {
      assert ids[..n + 1][..n] == ids[..n];
      UnpinStuck(s, ids, n + 1, active);
    } else {
      assert ids[..n] == ids;
    }
  }

  lemma {:induction false} PinStuck(s: State, ids: seq<string>, n: nat, active: Active)
    requires n <= |ids| && PinAll(s, ids[..n], active).Err?
    ensures PinAll(s, ids, active) == PinAll(s, ids[..n], active)
    decreases |ids| - n
  {
    if n < |ids| {
      assert ids[..n + 1][..n] == ids[..n];
      PinStuck(s, ids, n + 1, active);
    } else {
      assert ids[..n] == ids;
    }
  }

  // ------------------------------------------------------------------------ what they keep

  /** Replaying the log from an initial list; each event must also have recorded the list it led to. */
  function Replay(ids: seq<string>, events: seq<Event>): seq<string> {
    if events == [] then ids
    else
      var n := |events| - 1;
      var before := Replay(ids, events[..n]);
      if events[n].pinned then before + [events[n].id] else Minus(before, [events[n].id])
  }

  ghost predicate Faithful(ids: seq<string>, events: seq<Event>) {
    forall n :: 0 <= n < |events| ==>
      && events[n].after == Replay(ids, events[..n + 1])
      && (events[n].pinned <==> events[n].id !in Replay(ids, events[..n]))
  }

  /** The log accounts for the current list, starting from what was pinned initially. */
  ghost predicate Accounted(initial: seq<string>, s: State) {
    Replay(initial, s.events) == PinnedIds(s) && Faithful(initial, s.events)
  }

  /** Both places hold the current list, clean and free of duplicates. */
  predicate Mirrored(s: State) {
    s.structured == Some(s.mirror) && Normal(s.mirror)
  }

  lemma PinnedIsNormal(s: State)
    ensures Normal(PinnedIds(s))
    ensures Mirrored(s) ==> PinnedIds(s) == s.mirror
  {
    NormalizeNormal(s.mirror);
    if s.structured.Some? {
      NormalizeNormal(s.structured.value);
    }
  }

  lemma UniqueSplits(ids: seq<string>, id: string)
    ensures Unique(ids + [id]) <==> Unique(ids) && id !in ids
  {
    var all := ids + [id];
    assert forall k :: 0 <= k < |ids| ==> all[k] == ids[k];
    if Unique(all) {
      forall k | 0 <= k < |ids| ensures ids[k] != id {
        assert all[k] != all[|ids|];
      }
    }
  }

  lemma {:induction false} MinusUnique(ids: seq<string>, drop: seq<string>)
    requires Unique(ids)
    ensures Unique(Minus(ids, drop))
  {
    hide Unique;
    if ids != [] {
      var n := |ids| - 1;
      var rest := Minus(ids[..n], drop);
      assert ids == ids[..n] + [ids[n]] && rest + [] == rest;
      UniqueSplits(ids[..n], ids[n]);
      MinusUnique(ids[..n], drop);
      UniqueSplits(rest, ids[n]);
    }
  }

  lemma MinusNormal(ids: seq<string>, drop: seq<string>)
    requires Normal(ids)
    ensures Normal(Minus(ids, drop))
  {
    hide Clean, Unique, Minus;
    MinusUnique(ids, drop);
  }

  lemma DedupeAppends(ids: seq<string>, id: string)
    requires Unique(ids)
    ensures Dedupe(ids + [id]) == if id in ids then ids else ids + [id]
  {
    DedupeUnique(ids);
    assert (ids + [id])[..|ids|] == ids;
  }

  /** A written list is read back as it was written, the empty one included: the mirror does not bring ids back. */
  lemma WrittenIsRead(s: State, ids: seq<string>)
    requires Normal(ids)
    ensures Mirrored(Write(s, ids)) && PinnedIds(Write(s, ids)) == ids
  {
    PinnedIsNormal(Write(s, ids));
  }

  lemma ReplayExtends(ids: seq<string>, events: seq<Event>, e: Event)
    requires Faithful(ids, events)
    requires e.pinned <==> e.id !in Replay(ids, events)
    requires e.after == if e.pinned then Replay(ids, events) + [e.id] else Minus(Replay(ids, events), [e.id])
    ensures Replay(ids, events + [e]) == e.after && Faithful(ids, events + [e])
  {
    var all := events + [e];
    assert all[..|events|] == events && all[..|all|] == all;
    assert Replay(ids, all) == e.after;
    hide Replay, Minus;
    forall n {:trigger all[n]} | 0 <= n < |all|
      ensures all[n].after == Replay(ids, all[..n + 1]) && (all[n].pinned <==> all[n].id !in Replay(ids, all[..n]))
    {
      if n < |events| {
        assert all[n] == events[n] && all[..n + 1] == events[..n + 1] && all[..n] == events[..n];
      } else {
        assert all[..n + 1] == all && all[..n] == events;
      }
    }
  }

  lemma LoggedIsAccounted(initial: seq<string>, s: State, t: State, pinned: bool, id: string)
    requires Accounted(initial, s) && t.events == s.events
    requires pinned <==> id !in PinnedIds(s)
    requires PinnedIds(t) == if pinned then PinnedIds(s) + [id] else Minus(PinnedIds(s), [id])
    ensures Accounted(initial, Log(t, pinned, id)) && PinnedIds(Log(t, pinned, id)) == PinnedIds(t)
  {
    assert PinnedIds(Log(t, pinned, id)) == PinnedIds(t);
    hide PinnedIds, Minus, Replay, Faithful;
    ReplayExtends(initial, s.events, Event(pinned, id, PinnedIds(t)));
  }

  lemma {:induction false} MinusAbsent(ids: seq<string>, id: string)
    requires id !in ids
    ensures Minus(ids, [id]) == ids
  {
    if ids != [] {
      var n := |ids| - 1;
      MinusAbsent(ids[..n], id);
      assert Minus(ids, [id]) == Minus(ids[..n], [id]) + if ids[n] in [id] then [] else [ids[n]];
      hide Minus;
      assert ids[n] in ids && ids == ids[..n] + [ids[n]];
    }
  }

  lemma AppendNormal(ids: seq<string>, id: string)
    requires Normal(ids) && Clean(id)
    ensures Dedupe(ids + [id]) == (if id in ids then ids else ids + [id])
    ensures Normal(if id in ids then ids else ids + [id])
  {
    hide Clean;
    DedupeAppends(ids, id);
  }

  /** Pinning a clean identifier: it is in the list afterwards, at the back if it is new. */
  lemma PinKeeps(initial: seq<string>, s: State, id: string, active: Active)
    requires Accounted(initial, s) && Clean(id) && Pin(s, id, active).Ok?
    ensures
      var t := Pin(s, id, active).value;
      && Mirrored(t) && Accounted(initial, t)
      && PinnedIds(t) == if id in PinnedIds(s) then PinnedIds(s) else PinnedIds(s) + [id]
  {
    hide PinnedIds, Dedupe, Normal, Resolves, Clean, Accounted;
    var ids := PinnedIds(s);
    var next := if id in ids then ids else ids + [id];
    PinnedIsNormal(s);
    AppendNormal(ids, id);
    WrittenIsRead(s, next);
    if id !in ids {
      LoggedIsAccounted(initial, s, Write(s, next), true, id);
    } else {
      RewrittenIsAccounted(initial, s, next);
    }
  }

  lemma RewrittenIsAccounted(initial: seq<string>, s: State, ids: seq<string>)
    requires Accounted(initial, s) && PinnedIds(Write(s, ids)) == PinnedIds(s)
    ensures Accounted(initial, Write(s, ids))
  {
  }

  /** Unpinning removes the identifier, even the last one. */
  lemma UnpinKeeps(initial: seq<string>, s: State, id: string, active: Active)
    requires Accounted(initial, s) && Unpin(s, id, active).Ok?
    ensures
      var t := Unpin(s, id, active).value;
      && Mirrored(t) && Accounted(initial, t)
      && PinnedIds(t) == Minus(PinnedIds(s), [id]) && id !in PinnedIds(t)
  {
    hide PinnedIds, Minus, Normal, Resolves, Accounted;
    var ids := PinnedIds(s);
    var next := Minus(ids, [id]);
    PinnedIsNormal(s);
    MinusNormal(ids, [id]);
    WrittenIsRead(s, next);
    if id in ids {
      LoggedIsAccounted(initial, s, Write(s, next), false, id);
    } else {
      MinusAbsent(ids, id);
      RewrittenIsAccounted(initial, s, next);
    }
  }

  /** A pin keeps the log faithful exactly when the identifier is trimmed and not blank: any other is logged as it was
      given, but read back stripped or not at all. */
  lemma PinNeedsCleanId(initial: seq<string>, s: State, id: string, active: Active)
    requires Accounted(initial, s) && Pin(s, id, active).Ok?
    ensures Accounted(initial, Pin(s, id, active).value) <==> Clean(id)
  {
    if Clean(id) {
      PinKeeps(initial, s, id, active);
    } else {
      var t := Pin(s, id, active).value;
      PinnedIsNormal(s);
      PinnedIsNormal(t);
      hide PinnedIds, Clean, Faithful;
      assert t.events[..|s.events|] == s.events;
      assert Replay(initial, t.events) == PinnedIds(s) + [id];
      assert id in Replay(initial, t.events);
    }
  }

  // ------------------------------------------------------ single updates, told from the lists

  /** Some text of a list has a core. */
  ghost predicate SaysSomething(ids: seq<string>) {
    exists i :: 0 <= i < |ids| && !Blank(ids[i])
  }

  lemma NormalizeOfBlanks(ids: seq<string>)
    ensures Normalize(ids) != [] <==> SaysSomething(ids)
  {
    hide Blank, Normalize, Trims, Strip;
    if SaysSomething(ids) {
      var i :| 0 <= i < |ids| && !Blank(ids[i]);
      StripIsExact(ids[i], Strip(ids[i]));
      var first := FirstOf(ids, i, Strip(ids[i]));
      NormalizeHolds(ids, Strip(ids[i]));
    }
    if Normalize(ids) != [] {
      var core := Normalize(ids)[0];
      assert core in Normalize(ids);
      NormalizeHolds(ids, core);
      var p :| FirstTrimmed(ids, p, core);
      StripIsExact(ids[p], core);
    }
  }

  /** A structured list that says something is what is pinned; without one, or with a blank one, the legacy ids are. */
  lemma PinnedTells(s: State)
    ensures PinnedIds(s) ==
            if s.structured != None && SaysSomething(s.structured.value) then Normalize(s.structured.value) else Normalize(s.mirror)
  {
    if s.structured.Some? {
      NormalizeOfBlanks(s.structured.value);
    }
    hide Normalize, SaysSomething;
  }

  /** A pin goes through exactly when the memory service knows every id that would be pinned; then both places hold the
      list with the id, at the back if it is new, and a new one is logged. Otherwise nothing changes. */
  lemma PinTells(s: State, id: string, active: Active)
    ensures
      var before, r := PinnedIds(s), Pin(s, id, active);
      && (r.Ok? <==> active == None || (id in active.value && forall x :: x in before ==> x in active.value))
      && (r.Err? ==> r == Err(s))
      && (r.Ok? ==>
            var t := r.value;
            && t.mirror == (if id in before then before else before + [id]) && t.structured == Some(t.mirror)
            && t.events == if id in before then s.events else s.events + [Event(true, id, PinnedIds(t))])
  {
    var before := PinnedIds(s);
    PinnedIsNormal(s);
    DedupeAppends(before, id);
    hide PinnedIds, Dedupe, AllClean;
    assert forall x :: x in Dedupe(before + [id]) <==> x in before || x == id;
  }

  /** An unpin goes through exactly when the memory service knows every id that would be left; then both places hold
      what is left, in its order, and the removal of a pinned id is logged. Otherwise nothing changes. */
  lemma UnpinTells(s: State, id: string, active: Active)
    ensures
      var before, r := PinnedIds(s), Unpin(s, id, active);
      && (r.Ok? <==> active == None || forall x :: x in before && x != id ==> x in active.value)
      && (r.Err? ==> r == Err(s))
      && (r.Ok? ==>
            var t := r.value;
            && t.structured == Some(t.mirror) && Unique(t.mirror)
            && (forall x :: x in t.mirror <==> x in before && x != id)
            && (forall i, j :: 0 <= i < j < |t.mirror| ==> ListedInOrder(before, t.mirror[i], t.mirror[j]))
            && t.events == if id in before then s.events + [Event(false, id, PinnedIds(t))] else s.events)
  {
    var before := PinnedIds(s);
    var rest := Minus(before, [id]);
    PinnedIsNormal(s);
    MinusNormal(before, [id]);
    hide PinnedIds, Minus, AllClean, ListedInOrder;
    forall i, j | 0 <= i < j < |rest| ensures ListedInOrder(before, rest[i], rest[j]) {
      MinusKeepsOrder(before, [id], i, j);
    }
  }

  ghost predicate ListedInOrder(ids: seq<string>, a: string, b: string) {
    exists p, q :: 0 <= p < q < |ids| && ids[p] == a && ids[q] == b
  }

  lemma {:induction false} MinusKeepsOrder(ids: seq<string>, drop: seq<string>, i: nat, j: nat)
    requires i < j < |Minus(ids, drop)|
    ensures ListedInOrder(ids, Minus(ids, drop)[i], Minus(ids, drop)[j])
  {
    var n := |ids| - 1;
    var rest := Minus(ids[..n], drop);
    if j < |rest| {
      MinusKeepsOrder(ids[..n], drop, i, j);
      var p, q :| 0 <= p < q < n && ids[..n][p] == rest[i] && ids[..n][q] == rest[j];
      assert ids[p] == rest[i] && ids[q] == rest[j];
    } else {
      assert rest[i] in rest;
      var p :| 0 <= p < n && ids[..n][p] == rest[i];
      assert ids[p] == rest[i] && ids[n] == Minus(ids, drop)[j];
    }
  }

  /** A task that only holds legacy ids keeps them through its first pin. */
  lemma LegacyIdsSurvive(s: State, id: string, active: Active)
    requires s.structured == None && Clean(id) && Pin(s, id, active).Ok?
    ensures
      var before, t := Normalize(s.mirror), Pin(s, id, active).value;
      PinnedIds(t) == if id in before then before else before + [id]
  {
    PinnedTells(s);
    PinTells(s, id, active);
    PinnedIsNormal(s);
    var next := if id in PinnedIds(s) then PinnedIds(s) else PinnedIds(s) + [id];
    AppendNormal(PinnedIds(s), id);
    hide PinnedIds, Normalize, Clean, Pin;
    var t := Pin(s, id, active).value;
    assert t == Write(t, next);
    WrittenIsRead(t, next);
  }

  // ------------------------------------------------------------------------------ batches

  lemma {:induction false} MinusTwice(ids: seq<string>, drop: seq<string>, id: string)
    ensures Minus(Minus(ids, drop), [id]) == Minus(ids, drop + [id])
  {
    if ids != [] {
      var n := |ids| - 1;
      var rest := Minus(ids[..n], drop);
      assert Minus(ids, drop) == if ids[n] in drop then rest else rest + [ids[n]];
      assert Minus(ids, drop + [id]) == Minus(ids[..n], drop + [id]) + if ids[n] in drop + [id] then [] else [ids[n]];
      MinusAppends(rest, ids[n], [id]);
      MinusTwice(ids[..n], drop, id);
      hide Minus;
    }
  }

  lemma MinusAppends(ids: seq<string>, id: string, drop: seq<string>)
    ensures Minus(ids + [id], drop) == Minus(ids, drop) + if id in drop then [] else [id]
  {
  }

  lemma {:induction false} MinusSame(ids: seq<string>, a: seq<string>, b: seq<string>)
    requires forall id :: id in a <==> id in b
    ensures Minus(ids, a) == Minus(ids, b)
  {
    if ids != [] {
      MinusSame(ids[..|ids| - 1], a, b);
    }
  }

  lemma {:induction false} MinusNone(ids: seq<string>)
    ensures Minus(ids, []) == ids
  {
    if ids != [] {
      MinusNone(ids[..|ids| - 1]);
    }
  }

  /** Unpinning a list, even when it stops half-way. */
  lemma {:induction false} UnpinAllKeeps(initial: seq<string>, s: State, ids: seq<string>, active: Active)
    requires Accounted(initial, s)
    ensures
      var r := UnpinAll(s, ids, active);
      && Accounted(initial, Outcome(r))
      && (Mirrored(Outcome(r)) || (Outcome(r).structured == s.structured && Outcome(r).mirror == s.mirror))
      && (r.Ok? ==> PinnedIds(r.value) == Minus(PinnedIds(s), ids))
      && (r.Ok? <==> ids == [] || Resolves(active, Minus(PinnedIds(s), [ids[0]])))
  {
    hide PinnedIds, Accounted, Mirrored, Minus, Resolves;
    if ids == [] {
      MinusNone(PinnedIds(s));
    } else {
      var n := |ids| - 1;
      UnpinAllKeeps(initial, s, ids[..n], active);
      var before := UnpinAll(s, ids[..n], active);
      assert n > 0 ==> ids[..n][0] == ids[0];
      if before.Ok? {
        var r := Unpin(before.value, ids[n], active);
        assert UnpinAll(s, ids, active) == r;
        assert ids[..n] + [ids[n]] == ids;
        MinusTwice(PinnedIds(s), ids[..n], ids[n]);
        FirstUnpinDecides(active, PinnedIds(s), ids);
        if r.Ok? {
          UnpinKeeps(initial, before.value, ids[n], active);
        }
      }
    }
  }

  lemma FirstUnpinDecides(active: Active, pinned: seq<string>, ids: seq<string>)
    requires ids != []
    ensures Resolves(active, Minus(pinned, [ids[0]])) ==> Resolves(active, Minus(pinned, ids))
    ensures |ids| == 1 ==> Minus(pinned, ids) == Minus(pinned, [ids[0]])
  {
  }

  /** Pinning a list of clean identifiers, even when it stops half-way. */
  lemma {:induction false} PinAllKeeps(initial: seq<string>, s: State, ids: seq<string>, active: Active)
    requires Accounted(initial, s) && Normal(ids)
    ensures
      var r := PinAll(s, ids, active);
      && Accounted(initial, Outcome(r))
      && (Mirrored(Outcome(r)) || (Outcome(r).structured == s.structured && Outcome(r).mirror == s.mirror))
      && (r.Ok? ==> PinnedIds(r.value) == PinnedIds(s) + Minus(ids, PinnedIds(s)))
      && (r.Ok? <==> ids == [] || Resolves(active, PinnedIds(s) + ids))
  {
    hide PinnedIds, Accounted, Mirrored, Clean, Dedupe;
    if ids != [] {
      var n := |ids| - 1;
      assert ids[n] in ids && ids[n] !in ids[..n] && forall id :: id in ids[..n] ==> id in ids;
      PinAllKeeps(initial, s, ids[..n], active);
      var before := PinAll(s, ids[..n], active);
      if before.Ok? {
        var r := Pin(before.value, ids[n], active);
        assert PinAll(s, ids, active) == r;
        assert r.Ok? <==> Resolves(active, PinnedIds(s) + ids) by { SameResolve(active, s, ids, before.value); }
        if r.Ok? {
          PinKeeps(initial, before.value, ids[n], active);
        }
      } else {
        SmallerResolves(active, PinnedIds(s), ids);
      }
    }
  }

  lemma SmallerResolves(active: Active, base: seq<string>, ids: seq<string>)
    requires ids != []
    ensures Resolves(active, base + ids) ==> Resolves(active, base + ids[..|ids| - 1])
  {
  }

  lemma SameResolve(active: Active, s: State, ids: seq<string>, t: State)
    requires ids != [] && PinnedIds(t) == PinnedIds(s) + Minus(ids[..|ids| - 1], PinnedIds(s))
    ensures Resolves(active, Dedupe(PinnedIds(t) + [ids[|ids| - 1]])) <==> Resolves(active, PinnedIds(s) + ids)
  {
  }

  /** A batch yields what was pinned without the unpins, then the new pins in their order. It goes through exactly when
      the list resolves after the first unpin and after the last pin; if it does not, the log still tells the state. */
  lemma BatchKeeps(initial: seq<string>, s: State, unpins: seq<string>, pins: seq<string>, active: Active)
    requires Accounted(initial, s) && AllClean(pins)
    ensures
      var r := Batch(s, unpins, pins, active);
      var rest := Minus(PinnedIds(s), unpins);
      && Accounted(initial, Outcome(r))
      && (Mirrored(Outcome(r)) || (Outcome(r).structured == s.structured && Outcome(r).mirror == s.mirror))
      && (r.Ok? ==> PinnedIds(r.value) == rest + Minus(Dedupe(pins), rest))
      && (r.Ok? <==>
            && (unpins == [] || Resolves(active, Minus(PinnedIds(s), [unpins[0]])))
            && (pins == [] || Resolves(active, rest + pins)))
  {
    DedupeUnique(pins);
    FirstStays(unpins);
    MinusSame(PinnedIds(s), unpins, Dedupe(unpins));
    UnpinAllKeeps(initial, s, Dedupe(unpins), active);
    hide PinnedIds, Accounted, Mirrored, Clean, Minus;
    var r := UnpinAll(s, Dedupe(unpins), active);
    if r.Ok? {
      PinAllKeeps(initial, r.value, Dedupe(pins), active);
      assert Resolves(active, PinnedIds(r.value) + Dedupe(pins)) <==> Resolves(active, PinnedIds(r.value) + pins) by {
        assert forall id :: id in PinnedIds(r.value) + Dedupe(pins) <==> id in PinnedIds(r.value) + pins;
      }
    }
  }

  lemma {:induction false} FirstStays(ids: seq<string>)
    ensures ids != [] ==> Dedupe(ids) != [] && Dedupe(ids)[0] == ids[0]
  {
    if |ids| > 1 {
      FirstStays(ids[..|ids| - 1]);
    } else if ids != [] {
      assert ids[0] !in ids[..0];
    }
  }

  // --------------------------------------------------------------------------------- runs

  datatype Op =
    | PinOp(id: string, active: Active)
    | UnpinOp(id: string, active: Active)
    | BatchOp(unpins: seq<string>, pins: seq<string>, active: Active)

  function Do(s: State, op: Op): State {
    match op
    case PinOp(id, active) => Outcome(Pin(s, id, active))
    case UnpinOp(id, active) => Outcome(Unpin(s, id, active))
    case BatchOp(unpins, pins, active) => Outcome(Batch(s, unpins, pins, active))
  }

  function Exec(s: State, ops: seq<Op>): State {
    if ops == [] then s else Do(Exec(s, ops[..|ops| - 1]), ops[|ops| - 1])
  }

  predicate CleanOp(op: Op) {
    (op.PinOp? ==> Clean(op.id)) && (op.BatchOp? ==> AllClean(op.pins))
  }

  lemma OpKeeps(initial: seq<string>, s: State, op: Op)
    requires Accounted(initial, s) && CleanOp(op)
    ensures Accounted(initial, Do(s, op))
    ensures Mirrored(Do(s, op)) || (Do(s, op).structured == s.structured && Do(s, op).mirror == s.mirror)
  {
    hide Accounted, Mirrored, Clean;
    match op
    case PinOp(id, active) =>
      if Pin(s, id, active).Ok? {
        PinKeeps(initial, s, id, active);
      }
    case UnpinOp(id, active) =>
      if Unpin(s, id, active).Ok? {
        UnpinKeeps(initial, s, id, active);
      }
    case BatchOp(unpins, pins, active) => BatchKeeps(initial, s, unpins, pins, active);
  }

  /** Over every run, from whatever the task held at first: the log replayed from the initial list is the current one,
      every event recorded the list it led to, and the two places agree as soon as one of them was written. */
  lemma {:induction false} RunsKeepLog(structured: Option<seq<string>>, mirror: seq<string>, ops: seq<Op>)
    requires forall op :: op in ops ==> CleanOp(op)
    ensures
      var s := State(structured, mirror, []);
      var t := Exec(s, ops);
      && Accounted(PinnedIds(s), t)
      && (Mirrored(t) || (t.structured == structured && t.mirror == mirror))
  {
    var s := State(structured, mirror, []);
    if ops == [] {
      assert Accounted(PinnedIds(s), s);
    } else {
      var n := |ops| - 1;
      hide Accounted, Mirrored, PinnedIds, Do;
      assert ops[n] in ops && forall op :: op in ops[..n] ==> op in ops;
      RunsKeepLog(structured, mirror, ops[..n]);
      OpKeeps(PinnedIds(s), Exec(s, ops[..n]), ops[n]);
    }
  }
}
