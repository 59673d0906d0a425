/** One confirmed transaction becomes one transaction event and an event for every outer and inner instruction. */
module Fanout {
  import opened Base
  import opened EventIdentities

  /** Signatures and account keys are base58 texts, empty exactly for empty bytes; `body` is the opaque rest. */
  datatype CompiledInstruction = CompiledInstruction(programIdIndex: u32, body: string)

  datatype InnerGroup = InnerGroup(index: u32, instructions: seq<CompiledInstruction>)

  datatype Meta = Meta(innerInstructions: seq<InnerGroup>, loadedWritable: seq<string>, loadedReadonly: seq<string>)

  datatype Message = Message(accountKeys: seq<string>, instructions: seq<CompiledInstruction>)

  datatype ProtoTransaction = ProtoTransaction(message: Option<Message>)

  datatype TransactionInfo = TransactionInfo(signature: string, index: u64, transaction: Option<ProtoTransaction>,
                                             meta: Option<Meta>, body: string)

  datatype NormalizeError = MissingField(field: string) | InvalidIdentity(emptyField: string)

  datatype ProtoError =
    | MissingNestedField(field: string)
    | MissingBytes(field: string)
    | IndexOutOfRange(field: string, value: nat)
    | ProgramIdIndexOutOfRange(index: u32, accountKeys: nat)
    | Normalize(error: NormalizeError)

  datatype Context = Context(cluster: string, slot: u64, signature: string, transactionIndex: u64,
                             accountKeys: seq<string>)

  // ---------------------------------------------------------------- one event

  /** The Unicode white space that trimming removes. */
  predicate IsSpace(c: char) {
    '\t' <= c <= '\r' || c == ' ' || c == '\U{85}' || c == '\U{A0}' || c == '\U{1680}'
    || '\U{2000}' <= c <= '\U{200A}' || c == '\U{2028}' || c == '\U{2029}' || c == '\U{202F}' || c == '\U{205F}'
    || c == '\U{3000}'
  }

  /** White space is just the 25 characters that have the Unicode property of that name. */
  lemma SpacesListed(c: char)
    ensures IsSpace(c) <==>
              c as int in {0x9, 0xA, 0xB, 0xC, 0xD, 0x20, 0x85, 0xA0, 0x1680, 0x2000, 0x2001, 0x2002, 0x2003, 0x2004,
                           0x2005, 0x2006, 0x2007, 0x2008, 0x2009, 0x200A, 0x2028, 0x2029, 0x202F, 0x205F, 0x3000}
  {
  }

  predicate Blank(s: string) {
    forall i | 0 <= i < |s| :: IsSpace(s[i])
  }

  /** The first text field of a transaction or instruction identity that is blank. */
  function BlankField(id: EventIdentity): Option<string>
    requires id.Transaction? || id.Instruction?
  {
    if Blank(id.cluster) then Some("cluster")
    else if Blank(id.signature) then Some("signature")
    else if id.Instruction? && Blank(id.programId) then Some("program_id")
    else None
  }

  function BuildEvent(id: EventIdentity, payload: Payload): Result<NormalizedEvent, ProtoError>
    requires id.Transaction? || id.Instruction?
  {
    var blank := BlankField(id);
    if blank.Some? then Err(Normalize(InvalidIdentity(blank.value))) else Ok(NormalizedEvent(id, payload))
  }

  function CheckedU16(field: string, value: nat): Result<u16, ProtoError> {
    if value <= MAX_U16 then Ok(value) else Err(IndexOutOfRange(field, value))
  }

  function NormalizeCompiled(ctx: Context, index: u16, inner: Option<u16>, instruction: CompiledInstruction)
    : Result<NormalizedEvent, ProtoError>
  {
    if instruction.programIdIndex >= |ctx.accountKeys| then
      Err(ProgramIdIndexOutOfRange(instruction.programIdIndex, |ctx.accountKeys|))
    else
      var programId := ctx.accountKeys[instruction.programIdIndex];
      if Blank(ctx.signature) then Err(Normalize(MissingField("signature")))
      else if Blank(programId) then Err(Normalize(MissingField("program_id")))
      else BuildEvent(Instruction(ctx.cluster, ctx.slot, ctx.signature, ctx.transactionIndex, index, inner, programId),
                      Payload(None, instruction.body))
  }

  function MessageOf(info: TransactionInfo): Option<Message> {
    if info.transaction.Some? then info.transaction.value.message else None
  }

  /** Static keys, then loaded writable ones, then loaded read-only ones. */
  function AccountKeys(info: TransactionInfo): seq<string> {
    (if MessageOf(info).Some? then MessageOf(info).value.accountKeys else [])
    + if info.meta.Some? then info.meta.value.loadedWritable + info.meta.value.loadedReadonly else []
  }

  /** The key an instruction's index stands for: a static one, else a loaded writable one, else a read-only one. */
  function KeyAt(message: Message, meta: Option<Meta>, x: nat): Option<string> {
    var y, z := x - |message.accountKeys|, x - |message.accountKeys| - LoadedCount(meta).0;
    if x < |message.accountKeys| then Some(message.accountKeys[x])
    else if y < LoadedCount(meta).0 then Some(meta.value.loadedWritable[y])
    else if z < LoadedCount(meta).1 then Some(meta.value.loadedReadonly[z])
    else None
  }

  /** The numbers of loaded writable and read-only keys. */
  function LoadedCount(meta: Option<Meta>): (nat, nat) {
    if meta.Some? then (|meta.value.loadedWritable|, |meta.value.loadedReadonly|) else (0, 0)
  }

  ghost predicate HasMessage(info: TransactionInfo, message: Message) {
    info.transaction == Some(ProtoTransaction(Some(message)))
  }

  lemma KeysInOrder(info: TransactionInfo, message: Message, x: nat)
    requires HasMessage(info, message)
    ensures KeyAt(message, info.meta, x) == if x < |AccountKeys(info)| then Some(AccountKeys(info)[x]) else None
    ensures |AccountKeys(info)| == |message.accountKeys| + LoadedCount(info.meta).0 + LoadedCount(info.meta).1
  {
  }

  function Groups(info: TransactionInfo): seq<InnerGroup> {
    if info.meta.Some? then info.meta.value.innerInstructions else []
  }

  function ContextOf(cluster: string, slot: u64, info: TransactionInfo): Context {
    Context(cluster, slot, info.signature, info.index, AccountKeys(info))
  }

  // ---------------------------------------------------------------- the instructions in order

  /** A group's index is checked even if the group is empty. */
  datatype Work = Header(index: nat) | One(index: nat, inner: Option<nat>, instruction: CompiledInstruction)

  function OuterWork(instructions: seq<CompiledInstruction>, from: nat): seq<Work>
    decreases |instructions| - from
  {
    if from >= |instructions| then [] else [One(from, None, instructions[from])] + OuterWork(instructions, from + 1)
  }

  function ItemWork(g: InnerGroup, from: nat): seq<Work>
    decreases |g.instructions| - from
  {
    if from >= |g.instructions| then []
    else [One(g.index, Some(from), g.instructions[from])] + ItemWork(g, from + 1)
  }

  function GroupWork(groups: seq<InnerGroup>): seq<Work> {
    if groups == [] then [] else [Header(groups[0].index)] + ItemWork(groups[0], 0) + GroupWork(groups[1..])
  }

  function AllWork(info: TransactionInfo): seq<Work> {
    if MessageOf(info).None? then [] else OuterWork(MessageOf(info).value.instructions, 0) + GroupWork(Groups(info))
  }

  function Do(ctx: Context, w: Work): Result<seq<NormalizedEvent>, ProtoError> {
    var index := CheckedU16("instruction_index", w.index);
    if index.Err? then Err(index.error)
    else if w.Header? then Ok([])
    else if w.inner.None? then Single(NormalizeCompiled(ctx, index.value, None, w.instruction))
    else
      var inner := CheckedU16("inner_instruction_index", w.inner.value);
      if inner.Err? then Err(inner.error)
      else Single(NormalizeCompiled(ctx, index.value, Some(inner.value), w.instruction))
  }

  function Single(r: Result<NormalizedEvent, ProtoError>): Result<seq<NormalizedEvent>, ProtoError> {
    if r.Ok? then Ok([r.value]) else Err(r.error)
  }

  /** All events in order, or the first error. */
  function DoAll(ctx: Context, ws: seq<Work>): Result<seq<NormalizedEvent>, ProtoError> {
    if ws == [] then Ok([])
    else
      var before := DoAll(ctx, ws[..|ws| - 1]);
      if before.Err? then before
      else
        var last := Do(ctx, ws[|ws| - 1]);
        if last.Err? then last else Ok(before.value + last.value)
  }

  lemma {:induction false} ErrorStays(ctx: Context, ws: seq<Work>, p: nat)
    requires p <= |ws| && DoAll(ctx, ws[..p]).Err?
    ensures DoAll(ctx, ws) == DoAll(ctx, ws[..p])
  {
    if p == |ws| {
      assert ws[..p] == ws;
    } else {
      assert ws[..|ws| - 1][..p] == ws[..p];
      ErrorStays(ctx, ws[..|ws| - 1], p);
    }
  }

  /** The events of the first `p` pieces of work are done, and `todo` is left. */
  ghost predicate Reached(ctx: Context, all: seq<Work>, p: nat, events: seq<NormalizedEvent>, todo: seq<Work>) {
    p <= |all| && all[p..] == todo && DoAll(ctx, all[..p]) == Ok(events)
  }

  lemma DoNext(ctx: Context, all: seq<Work>, p: nat, events: seq<NormalizedEvent>, w: Work, todo: seq<Work>)
    requires Reached(ctx, all, p, events, [w] + todo)
    ensures var r := Do(ctx, w);
            if r.Ok? then Reached(ctx, all, p + 1, events + r.value, todo) else DoAll(ctx, all) == Err(r.error)
  {
    assert all[p] == all[p..][0] == w;
    assert all[p + 1..] == all[p..][1..] == todo;
    assert all[..p + 1][..p] == all[..p];
    if Do(ctx, w).Err? { ErrorStays(ctx, all, p + 1); }
  }

  lemma OuterUnfolds(instructions: seq<CompiledInstruction>, i: nat, rest: seq<Work>)
    ensures OuterWork(instructions, i) + rest
         == if i >= |instructions| then rest
            else [One(i, None, instructions[i])] + (OuterWork(instructions, i + 1) + rest)
  {
  }

  lemma ItemsUnfold(g: InnerGroup, j: nat, rest: seq<Work>)
    ensures ItemWork(g, j) + rest
         == if j >= |g.instructions| then rest
            else [One(g.index, Some(j), g.instructions[j])] + (ItemWork(g, j + 1) + rest)
  {
  }

  lemma GroupsUnfold(groups: seq<InnerGroup>, g: nat)
    requires g <= |groups|
    ensures GroupWork(groups[g..])
         == if g == |groups| then []
            else [Header(groups[g].index)] + (ItemWork(groups[g], 0) + GroupWork(groups[g + 1..]))
  {
    if g < |groups| { assert groups[g..][1..] == groups[g + 1..]; }
  }

  method NormalizeProtoInstructions(cluster: string, slot: u64, info: TransactionInfo)
    returns (r: Result<seq<NormalizedEvent>, ProtoError>)
    ensures r == DoAll(ContextOf(cluster, slot, info), AllWork(info))
  {
    if info.transaction.None? { return Ok([]); }
    if info.transaction.value.message.None? { return Ok([]); }
    var instructions, groups := info.transaction.value.message.value.instructions, Groups(info);
    var ctx := ContextOf(cluster, slot, info);
    ghost var all := AllWork(info);
    ghost var p: nat := 0;
    r, p := AppendOuter(ctx, instructions, all, GroupWork(groups));
    if r.Err? { return; }
    r := AppendInner(ctx, groups, r.value, all, p);
  }

  method AppendOuter(ctx: Context, instructions: seq<CompiledInstruction>, ghost all: seq<Work>, ghost rest: seq<Work>)
    returns (r: Result<seq<NormalizedEvent>, ProtoError>, ghost p: nat)
    requires all == OuterWork(instructions, 0) + rest
    ensures r.Ok? ==> Reached(ctx, all, p, r.value, rest)
    ensures r.Err? ==> DoAll(ctx, all) == r
  {
    var events: seq<NormalizedEvent> := [];
    p := 0;
    for i := 0 to |instructions|
      invariant Reached(ctx, all, p, events, OuterWork(instructions, i) + rest)
    {
      OuterUnfolds(instructions, i, rest);
      DoNext(ctx, all, p, events, One(i, None, instructions[i]), OuterWork(instructions, i + 1) + rest);
      p := p + 1;
      var index := CheckedU16("instruction_index", i);
      if index.Err? { return Err(index.error), p; }
      var event := NormalizeCompiled(ctx, index.value, None, instructions[i]);
      if event.Err? { return Err(event.error), p; }
      events := events + [event.value];
    }
    OuterUnfolds(instructions, |instructions|, rest);
    r := Ok(events);
  }

  /** The loop over the groups and, inside it, the loop over one group's instructions. */
  method AppendInner(ctx: Context, groups: seq<InnerGroup>, before: seq<NormalizedEvent>, ghost all: seq<Work>,
                     ghost from: nat)
    returns (r: Result<seq<NormalizedEvent>, ProtoError>)
    requires Reached(ctx, all, from, before, GroupWork(groups))
    ensures r == DoAll(ctx, all)
  {
    var events := before;
    ghost var p: nat := from;
    assert groups[0..] == groups;
    for g := 0 to |groups|
      invariant Reached(ctx, all, p, events, GroupWork(groups[g..]))
    {
      ghost var rest := GroupWork(groups[g + 1..]);
      GroupsUnfold(groups, g);
      DoNext(ctx, all, p, events, Header(groups[g].index), ItemWork(groups[g], 0) + rest);
      p := p + 1;
      var index := CheckedU16("instruction_index", groups[g].index);
      if index.Err? { return Err(index.error); }
      assert events + [] == events;
      r, p := AppendGroup(ctx, index.value, groups[g], events, all, p, rest);
      if r.Err? { return; }
      events := r.value;
    }
    GroupsUnfold(groups, |groups|);
    assert all[..p] == all;
    r := Ok(events);
  }

  method AppendGroup(ctx: Context, index: u16, group: InnerGroup, before: seq<NormalizedEvent>,
                     ghost all: seq<Work>, ghost from: nat, ghost rest: seq<Work>)
    returns (r: Result<seq<NormalizedEvent>, ProtoError>, ghost p: nat)
    requires index == group.index && Reached(ctx, all, from, before, ItemWork(group, 0) + rest)
    ensures r.Ok? ==> Reached(ctx, all, p, r.value, rest)
    ensures r.Err? ==> DoAll(ctx, all) == r
  {
    var events := before;
    p := from;
    for j := 0 to |group.instructions|
      invariant Reached(ctx, all, p, events, ItemWork(group, j) + rest)
    {
      ItemsUnfold(group, j, rest);
      DoNext(ctx, all, p, events, One(group.index, Some(j), group.instructions[j]), ItemWork(group, j + 1) + rest);
      p := p + 1;
      var inner := CheckedU16("inner_instruction_index", j);
      if inner.Err? { return Err(inner.error), p; }
      var event := NormalizeCompiled(ctx, index, Some(inner.value), group.instructions[j]);
      if event.Err? { return Err(event.error), p; }
      events := events + [event.value];
    }
    ItemsUnfold(group, |group.instructions|, rest);
    r := Ok(events);
  }

  // ---------------------------------------------------------------- when it succeeds

  predicate ProgramFits(keys: seq<string>, instruction: CompiledInstruction) {
    instruction.programIdIndex < |keys| && !Blank(keys[instruction.programIdIndex])
  }

  /** Positions fit 16 bits, and every program is among the account keys. */
  ghost predicate Numbered(keys: seq<string>, instructions: seq<CompiledInstruction>) {
    |instructions| <= MAX_U16 + 1 && forall i | 0 <= i < |instructions| :: ProgramFits(keys, instructions[i])
  }

  ghost predicate GroupFits(keys: seq<string>, g: InnerGroup) {
    g.index <= MAX_U16 && Numbered(keys, g.instructions)
  }

  /** There are at most 2^16 instructions, and each one's index stands for a key that is not blank. */
  ghost predicate Runnable(message: Message, meta: Option<Meta>, instructions: seq<CompiledInstruction>) {
    && |instructions| <= 65536
    && forall i | 0 <= i < |instructions| ::
         var key := KeyAt(message, meta, instructions[i].programIdIndex);
         key.Some? && !Blank(key.value)
  }

  ghost predicate Convertible(cluster: string, info: TransactionInfo) {
    && !Blank(info.signature) && !Blank(cluster)
    && forall message | HasMessage(info, message) ::
         && Runnable(message, info.meta, message.instructions)
         && forall g | g in InnerGroups(info.meta) :: g.index <= 65535 && Runnable(message, info.meta, g.instructions)
  }

  lemma RunnableIff(info: TransactionInfo, message: Message, instructions: seq<CompiledInstruction>)
    requires HasMessage(info, message)
    ensures Runnable(message, info.meta, instructions) <==> Numbered(AccountKeys(info), instructions)
  {
    forall i | 0 <= i < |instructions|
      ensures ProgramFits(AccountKeys(info), instructions[i]) <==>
                var key := KeyAt(message, info.meta, instructions[i].programIdIndex);
                key.Some? && !Blank(key.value)
    {
      KeysInOrder(info, message, instructions[i].programIdIndex);
    }
  }

  lemma ConvertibleIff(cluster: string, info: TransactionInfo)
    requires !Blank(info.signature) && !Blank(cluster)
    ensures Convertible(cluster, info) <==>
              (MessageOf(info).Some? ==>
                 && Numbered(AccountKeys(info), MessageOf(info).value.instructions)
                 && forall g | g in Groups(info) :: GroupFits(AccountKeys(info), g))
  {
    if MessageOf(info).Some? {
      var message := MessageOf(info).value;
      assert HasMessage(info, message);
      RunnableIff(info, message, message.instructions);
      forall g | g in Groups(info)
        ensures GroupFits(AccountKeys(info), g) <==> g.index <= 65535 && Runnable(message, info.meta, g.instructions)
      {
        RunnableIff(info, message, g.instructions);
      }
    }
  }

  ghost predicate AllOk(ctx: Context, ws: seq<Work>) {
    forall w | w in ws :: Do(ctx, w).Ok?
  }

  lemma {:induction false} DoAllOkIff(ctx: Context, ws: seq<Work>)
    ensures DoAll(ctx, ws).Ok? <==> AllOk(ctx, ws)
  {
    if ws != [] {
      var front, last := ws[..|ws| - 1], ws[|ws| - 1];
      DoAllOkIff(ctx, front);
      assert ws == front + [last];
    }
  }

  /** What fails first decides the error. */
  lemma FirstErrorWins(ctx: Context, ws: seq<Work>, p: nat)
    requires p < |ws| && AllOk(ctx, ws[..p]) && Do(ctx, ws[p]).Err?
    ensures DoAll(ctx, ws) == Err(Do(ctx, ws[p]).error)
  {
    DoAllOkIff(ctx, ws[..p]);
    assert ws[..p + 1][..p] == ws[..p];
    ErrorStays(ctx, ws, p + 1);
  }

  /** Which error a piece of work fails with, and when it does not fail. */
  lemma WhichError(cluster: string, slot: u64, info: TransactionInfo, message: Message, w: Work)
    requires HasMessage(info, message) && !Blank(info.signature) && !Blank(cluster)
    ensures var r := Do(ContextOf(cluster, slot, info), w);
            if w.index > 65535 then r == Err(IndexOutOfRange("instruction_index", w.index))
            else if w.Header? then r == Ok([])
            else if w.inner.Some? && w.inner.value > 65535 then
              r == Err(IndexOutOfRange("inner_instruction_index", w.inner.value))
            else
              var x, loaded := w.instruction.programIdIndex, LoadedCount(info.meta);
              var key := KeyAt(message, info.meta, x);
              if key.None? then
                r == Err(ProgramIdIndexOutOfRange(x, |message.accountKeys| + loaded.0 + loaded.1))
              else if Blank(key.value) then r == Err(Normalize(MissingField("program_id")))
              else r.Ok?
  {
    if w.One? { KeysInOrder(info, message, w.instruction.programIdIndex); }
  }

  predicate Named(ctx: Context) {
    !Blank(ctx.signature) && !Blank(ctx.cluster)
  }

  lemma OneOkIff(ctx: Context, w: Work)
    requires Named(ctx)
    ensures Do(ctx, w).Ok? <==>
              && w.index <= MAX_U16
              && (w.One? ==>
                    (w.inner.Some? ==> w.inner.value <= MAX_U16) && ProgramFits(ctx.accountKeys, w.instruction))
  {
  }

  lemma {:induction false} OuterAt(instructions: seq<CompiledInstruction>, from: nat)
    requires from <= |instructions|
    ensures |OuterWork(instructions, from)| == |instructions| - from
    ensures forall k | 0 <= k < |instructions| - from ::
              OuterWork(instructions, from)[k] == One(from + k, None, instructions[from + k])
    decreases |instructions| - from
  {
    if from < |instructions| {
      OuterAt(instructions, from + 1);
      var here, rest := [One(from, None, instructions[from])], OuterWork(instructions, from + 1);
      forall k | 0 <= k < |instructions| - from
        ensures (here + rest)[k] == One(from + k, None, instructions[from + k])
      {
        if k > 0 { assert (here + rest)[k] == rest[k - 1]; }
      }
    }
  }

  lemma {:induction false} ItemAt(g: InnerGroup, from: nat)
    requires from <= |g.instructions|
    ensures |ItemWork(g, from)| == |g.instructions| - from
    ensures forall k | 0 <= k < |g.instructions| - from ::
              ItemWork(g, from)[k] == One(g.index, Some(from + k), g.instructions[from + k])
    decreases |g.instructions| - from
  {
    if from < |g.instructions| {
      ItemAt(g, from + 1);
      var here, rest := [One(g.index, Some(from), g.instructions[from])], ItemWork(g, from + 1);
      forall k | 0 <= k < |g.instructions| - from
        ensures (here + rest)[k] == One(g.index, Some(from + k), g.instructions[from + k])
      {
        if k > 0 { assert (here + rest)[k] == rest[k - 1]; }
      }
    }
  }

  lemma OuterOkIff(ctx: Context, instructions: seq<CompiledInstruction>)
    requires Named(ctx)
    ensures AllOk(ctx, OuterWork(instructions, 0)) <==> Numbered(ctx.accountKeys, instructions)
  {
    var ws := OuterWork(instructions, 0);
    OuterAt(instructions, 0);
    forall i | 0 <= i < |ws|
      ensures Do(ctx, ws[i]).Ok? <==> i <= MAX_U16 && ProgramFits(ctx.accountKeys, instructions[i])
    {
      OneOkIff(ctx, ws[i]);
    }
    if |instructions| > MAX_U16 + 1 {
      assert ws[MAX_U16 + 1] in ws;
    }
    assert forall i | 0 <= i < |ws| :: ws[i] in ws;
  }

  lemma ItemsOkIff(ctx: Context, g: InnerGroup)
    requires Named(ctx) && g.index <= MAX_U16
    ensures AllOk(ctx, ItemWork(g, 0)) <==> Numbered(ctx.accountKeys, g.instructions)
  {
    var ws := ItemWork(g, 0);
    ItemAt(g, 0);
    forall j | 0 <= j < |ws|
      ensures Do(ctx, ws[j]).Ok? <==> j <= MAX_U16 && ProgramFits(ctx.accountKeys, g.instructions[j])
    {
      OneOkIff(ctx, ws[j]);
    }
    if |g.instructions| > MAX_U16 + 1 {
      assert ws[MAX_U16 + 1] in ws;
    }
    assert forall j | 0 <= j < |ws| :: ws[j] in ws;
  }

  lemma GroupOkIff(ctx: Context, g: InnerGroup)
    requires Named(ctx)
    ensures AllOk(ctx, [Header(g.index)] + ItemWork(g, 0)) <==> GroupFits(ctx.accountKeys, g)
  {
    AllOkAppend(ctx, [Header(g.index)], ItemWork(g, 0));
    OneOkIff(ctx, Header(g.index));
    assert Header(g.index) in [Header(g.index)];
    if g.index <= MAX_U16 { ItemsOkIff(ctx, g); }
  }

  lemma {:induction false} GroupsOkIff(ctx: Context, groups: seq<InnerGroup>)
    requires Named(ctx)
    ensures AllOk(ctx, GroupWork(groups)) <==> forall g | g in groups :: GroupFits(ctx.accountKeys, g)
  {
    if groups != [] {
      GroupOkIff(ctx, groups[0]);
      GroupsOkIff(ctx, groups[1..]);
      assert groups == [groups[0]] + groups[1..];
      AllOkAppend(ctx, [Header(groups[0].index)] + ItemWork(groups[0], 0), GroupWork(groups[1..]));
    }
  }

  lemma AllOkAppend(ctx: Context, a: seq<Work>, b: seq<Work>)
    ensures AllOk(ctx, a + b) <==> AllOk(ctx, a) && AllOk(ctx, b)
  {
    assert forall w :: w in a + b <==> w in a || w in b;
  }

  /** Instruction events can be made exactly when every position fits 16 bits and every program id is there. */
  lemma InstructionsOkIff(cluster: string, slot: u64, info: TransactionInfo)
    requires !Blank(info.signature) && !Blank(cluster)
    ensures DoAll(ContextOf(cluster, slot, info), AllWork(info)).Ok? <==> Convertible(cluster, info)
  {
    var ctx := ContextOf(cluster, slot, info);
    ConvertibleIff(cluster, info);
    DoAllOkIff(ctx, AllWork(info));
    if MessageOf(info).Some? {
      var instructions := MessageOf(info).value.instructions;
      OuterOkIff(ctx, instructions);
      GroupsOkIff(ctx, Groups(info));
      AllOkAppend(ctx, OuterWork(instructions, 0), GroupWork(Groups(info)));
    }
  }

  // ---------------------------------------------------------------- what it yields

  /** The event of the given instruction: where it stands, what it runs, and its own text. */
  ghost predicate IsEventOf(ctx: Context, e: NormalizedEvent, index: nat, inner: Option<nat>,
                            instruction: CompiledInstruction)
  {
    && e.identity.Instruction?
    && e.identity.cluster == ctx.cluster && e.identity.slot == ctx.slot && e.identity.signature == ctx.signature
    && e.identity.transactionIndex == ctx.transactionIndex
    && e.identity.instructionIndex == index && e.identity.innerInstructionIndex == inner
    && instruction.programIdIndex < |ctx.accountKeys|
    && e.identity.programId == ctx.accountKeys[instruction.programIdIndex]
    && e.payload == Payload(None, instruction.body)
  }

  /** The inner instructions in all groups before the `g`-th. */
  function Offset(groups: seq<InnerGroup>, g: nat): nat
    requires g <= |groups|
  {
    if g == 0 then 0 else Offset(groups, g - 1) + |groups[g - 1].instructions|
  }

  function OuterCount(info: TransactionInfo): nat {
    if MessageOf(info).Some? then |MessageOf(info).value.instructions| else 0
  }

  /** The groups that are looked at: none without a message. */
  function UsedGroups(info: TransactionInfo): seq<InnerGroup> {
    if MessageOf(info).Some? then Groups(info) else []
  }

  /** The instruction events: outer ones by position, then the groups in order, each by inner position. */
  ghost predicate FannedOut(cluster: string, slot: u64, info: TransactionInfo, events: seq<NormalizedEvent>) {
    var ctx, n, groups := ContextOf(cluster, slot, info), OuterCount(info), UsedGroups(info);
    && |events| == n + Offset(groups, |groups|)
    && (forall i | 0 <= i < n :: IsEventOf(ctx, events[i], i, None, MessageOf(info).value.instructions[i]))
    && (forall g, j | 0 <= g < |groups| && 0 <= j < |groups[g].instructions| ::
          InnerEventThere(ctx, events, n, groups, g, j))
  }

  ghost predicate InnerEventThere(ctx: Context, events: seq<NormalizedEvent>, n: nat, groups: seq<InnerGroup>, g: nat,
                                  j: nat)
    requires g < |groups| && j < |groups[g].instructions|
  {
    && n + Offset(groups, g) + j < |events|
    && IsEventOf(ctx, events[n + Offset(groups, g) + j], groups[g].index, Some(j), groups[g].instructions[j])
  }

  /** The event of one instruction, read off the transaction. */
  ghost predicate IsInstructionEvent(cluster: string, slot: u64, info: TransactionInfo, message: Message,
                                     e: NormalizedEvent, index: nat, inner: Option<nat>,
                                     instruction: CompiledInstruction)
  {
    && e.identity.Instruction? && e.payload == Payload(None, instruction.body)
    && e.identity.cluster == cluster && e.identity.slot == slot
    && e.identity.signature == info.signature && e.identity.transactionIndex == info.index
    && e.identity.instructionIndex == index && e.identity.innerInstructionIndex == inner
    && KeyAt(message, info.meta, instruction.programIdIndex) == Some(e.identity.programId)
  }

  /** The groups of inner instructions, if any are known. */
  function InnerGroups(meta: Option<Meta>): seq<InnerGroup> {
    if meta.Some? then meta.value.innerInstructions else []
  }

  /** The event of the `j`-th instruction of group `g` stands behind all those before it. */
  ghost predicate InnerPlaced(cluster: string, slot: u64, info: TransactionInfo, message: Message,
                              events: seq<NormalizedEvent>, g: nat, j: nat)
    requires g < |InnerGroups(info.meta)| && j < |InnerGroups(info.meta)[g].instructions|
  {
    var groups := InnerGroups(info.meta);
    var k := |message.instructions| + Offset(groups, g) + j;
    && k < |events|
    && IsInstructionEvent(cluster, slot, info, message, events[k], groups[g].index, Some(j), groups[g].instructions[j])
  }

  /** The instruction events of a transaction with a message: the outer ones by position, then group by group. */
  ghost predicate PlacedFor(cluster: string, slot: u64, info: TransactionInfo, message: Message,
                            events: seq<NormalizedEvent>)
  {
    var n, groups := |message.instructions|, InnerGroups(info.meta);
    && |events| == n + Offset(groups, |groups|)
    && (forall i | 0 <= i < n ::
          IsInstructionEvent(cluster, slot, info, message, events[i], i, None, message.instructions[i]))
    && (forall g, j | 0 <= g < |groups| && 0 <= j < |groups[g].instructions| ::
          InnerPlaced(cluster, slot, info, message, events, g, j))
  }

  /** Without a message there are no instruction events. */
  ghost predicate Placed(cluster: string, slot: u64, info: TransactionInfo, events: seq<NormalizedEvent>) {
    && ((forall message :: !HasMessage(info, message)) ==> events == [])
    && forall message | HasMessage(info, message) :: PlacedFor(cluster, slot, info, message, events)
  }

  lemma SameEvent(cluster: string, slot: u64, info: TransactionInfo, message: Message, e: NormalizedEvent, index: nat,
                  inner: Option<nat>, instruction: CompiledInstruction)
    requires HasMessage(info, message) && IsEventOf(ContextOf(cluster, slot, info), e, index, inner, instruction)
    ensures IsInstructionEvent(cluster, slot, info, message, e, index, inner, instruction)
  {
    KeysInOrder(info, message, instruction.programIdIndex);
  }

  lemma SameOuterEvents(cluster: string, slot: u64, info: TransactionInfo, message: Message,
                        events: seq<NormalizedEvent>)
    requires HasMessage(info, message) && FannedOut(cluster, slot, info, events)
    ensures |message.instructions| <= |events| && forall i | 0 <= i < |message.instructions| ::
              IsInstructionEvent(cluster, slot, info, message, events[i], i, None, message.instructions[i])
  {
    forall i | 0 <= i < |message.instructions|
      ensures IsInstructionEvent(cluster, slot, info, message, events[i], i, None, message.instructions[i])
    {
      SameEvent(cluster, slot, info, message, events[i], i, None, message.instructions[i]);
    }
  }

  lemma SameInnerEvent(cluster: string, slot: u64, info: TransactionInfo, message: Message,
                       events: seq<NormalizedEvent>, g: nat, j: nat)
    requires HasMessage(info, message) && FannedOut(cluster, slot, info, events)
    requires g < |InnerGroups(info.meta)| && j < |InnerGroups(info.meta)[g].instructions|
    ensures InnerPlaced(cluster, slot, info, message, events, g, j)
  {
    var groups, n := UsedGroups(info), OuterCount(info);
    assert groups == InnerGroups(info.meta) && n == |message.instructions|;
    assert InnerEventThere(ContextOf(cluster, slot, info), events, n, groups, g, j);
    SameEvent(cluster, slot, info, message, events[n + Offset(groups, g) + j], groups[g].index, Some(j),
              groups[g].instructions[j]);
  }

  lemma FannedOutIsPlaced(cluster: string, slot: u64, info: TransactionInfo, events: seq<NormalizedEvent>)
    requires FannedOut(cluster, slot, info, events)
    ensures Placed(cluster, slot, info, events)
  {
    if MessageOf(info).None? {
      assert UsedGroups(info) == [];
    } else {
      var message := MessageOf(info).value;
      assert HasMessage(info, message);
      SameOuterEvents(cluster, slot, info, message, events);
      assert UsedGroups(info) == InnerGroups(info.meta);
      forall g, j | 0 <= g < |InnerGroups(info.meta)| && 0 <= j < |InnerGroups(info.meta)[g].instructions|
        ensures InnerPlaced(cluster, slot, info, message, events, g, j)
      {
        SameInnerEvent(cluster, slot, info, message, events, g, j);
      }
      assert PlacedFor(cluster, slot, info, message, events);
    }
  }

  lemma {:induction false} DoAllAppend(ctx: Context, a: seq<Work>, b: seq<Work>)
    requires DoAll(ctx, a + b).Ok?
    ensures DoAll(ctx, a).Ok? && DoAll(ctx, b).Ok?
    ensures DoAll(ctx, a + b) == Ok(DoAll(ctx, a).value + DoAll(ctx, b).value)
    decreases |b|
  {
    if b == [] {
      assert a + b == a;
      assert DoAll(ctx, a).value + [] == DoAll(ctx, a).value;
    } else {
      assert (a + b)[..|a + b| - 1] == a + b[..|b| - 1];
      DoAllAppend(ctx, a, b[..|b| - 1]);
      var x, y, z := DoAll(ctx, a).value, DoAll(ctx, b[..|b| - 1]).value, Do(ctx, b[|b| - 1]).value;
      assert (x + y) + z == x + (y + z);
    }
  }

  lemma OneEvent(ctx: Context, w: Work)
    requires w.One? && Do(ctx, w).Ok?
    ensures |Do(ctx, w).value| == 1 && IsEventOf(ctx, Do(ctx, w).value[0], w.index, w.inner, w.instruction)
  {
  }

  /** Work without headers yields one event each. */
  lemma {:induction false} OneEventEach(ctx: Context, ws: seq<Work>)
    requires DoAll(ctx, ws).Ok? && forall k | 0 <= k < |ws| :: ws[k].One?
    ensures |DoAll(ctx, ws).value| == |ws|
    ensures forall k | 0 <= k < |ws| ::
              IsEventOf(ctx, DoAll(ctx, ws).value[k], ws[k].index, ws[k].inner, ws[k].instruction)
  {
    if ws != [] {
      var front, last := ws[..|ws| - 1], ws[|ws| - 1];
      OneEventEach(ctx, front);
      OneEvent(ctx, last);
      var before, here := DoAll(ctx, front).value, Do(ctx, last).value;
      forall k | 0 <= k < |ws|
        ensures IsEventOf(ctx, (before + here)[k], ws[k].index, ws[k].inner, ws[k].instruction)
      {
        if k < |front| { assert ws[k] == front[k]; }
      }
    }
  }

  lemma OuterYields(ctx: Context, instructions: seq<CompiledInstruction>)
    requires DoAll(ctx, OuterWork(instructions, 0)).Ok?
    ensures |DoAll(ctx, OuterWork(instructions, 0)).value| == |instructions|
    ensures forall i | 0 <= i < |instructions| ::
              IsEventOf(ctx, DoAll(ctx, OuterWork(instructions, 0)).value[i], i, None, instructions[i])
  {
    var ws := OuterWork(instructions, 0);
    OuterAt(instructions, 0);
    OneEventEach(ctx, ws);
    var events := DoAll(ctx, ws).value;
    forall i | 0 <= i < |instructions| ensures IsEventOf(ctx, events[i], i, None, instructions[i]) {
      assert ws[i] == One(i, None, instructions[i]);
      assert IsEventOf(ctx, events[i], ws[i].index, ws[i].inner, ws[i].instruction);
    }
  }

  lemma ItemsYield(ctx: Context, g: InnerGroup)
    requires DoAll(ctx, ItemWork(g, 0)).Ok?
    ensures |DoAll(ctx, ItemWork(g, 0)).value| == |g.instructions|
    ensures forall j | 0 <= j < |g.instructions| ::
              IsEventOf(ctx, DoAll(ctx, ItemWork(g, 0)).value[j], g.index, Some(j), g.instructions[j])
  {
    var ws := ItemWork(g, 0);
    ItemAt(g, 0);
    OneEventEach(ctx, ws);
    var events := DoAll(ctx, ws).value;
    forall j | 0 <= j < |g.instructions| ensures IsEventOf(ctx, events[j], g.index, Some(j), g.instructions[j]) {
      assert ws[j] == One(g.index, Some(j), g.instructions[j]);
      assert IsEventOf(ctx, events[j], ws[j].index, ws[j].inner, ws[j].instruction);
    }
  }

  lemma HeaderYieldsNothing(ctx: Context, index: nat, ws: seq<Work>)
    requires DoAll(ctx, [Header(index)] + ws).Ok?
    ensures DoAll(ctx, [Header(index)] + ws) == DoAll(ctx, ws)
  {
    DoAllAppend(ctx, [Header(index)], ws);
    assert [Header(index)][..0] == [];
    assert DoAll(ctx, [Header(index)]).value + DoAll(ctx, ws).value == DoAll(ctx, ws).value;
  }

  /** The events of the first `n` groups, from the events of one group fewer and those of the next one. */
  lemma OneMoreGroup(ctx: Context, groups: seq<InnerGroup>, n: nat, before: seq<NormalizedEvent>,
                     here: seq<NormalizedEvent>)
    requires 0 < n <= |groups| && |before| == Offset(groups, n - 1) && |here| == |groups[n - 1].instructions|
    requires forall g, j | 0 <= g < n - 1 && 0 <= j < |groups[g].instructions| ::
               InnerEventThere(ctx, before, 0, groups, g, j)
    requires forall j | 0 <= j < |here| ::
               IsEventOf(ctx, here[j], groups[n - 1].index, Some(j), groups[n - 1].instructions[j])
    ensures |before + here| == Offset(groups, n)
    ensures forall g, j | 0 <= g < n && 0 <= j < |groups[g].instructions| ::
              InnerEventThere(ctx, before + here, 0, groups, g, j)
  {
    forall g, j | 0 <= g < n && 0 <= j < |groups[g].instructions|
      ensures InnerEventThere(ctx, before + here, 0, groups, g, j)
    {
      if g < n - 1 {
        assert InnerEventThere(ctx, before, 0, groups, g, j);
      } else {
        assert (before + here)[Offset(groups, g) + j] == here[j];
      }
    }
  }

  lemma SplitGroups(groups: seq<InnerGroup>, n: nat)
    requires 0 < n <= |groups|
    ensures GroupWork(groups[..n])
         == GroupWork(groups[..n - 1]) + ([Header(groups[n - 1].index)] + ItemWork(groups[n - 1], 0))
  {
    assert groups[..n] == groups[..n - 1] + [groups[n - 1]];
    GroupWorkSnoc(groups[..n - 1], groups[n - 1]);
  }

  /** The groups one after the other. */
  lemma {:induction false} GroupsYield(ctx: Context, groups: seq<InnerGroup>, n: nat)
    requires n <= |groups| && DoAll(ctx, GroupWork(groups[..n])).Ok?
    ensures var events := DoAll(ctx, GroupWork(groups[..n])).value;
            && |events| == Offset(groups, n)
            && forall g, j | 0 <= g < n && 0 <= j < |groups[g].instructions| ::
                 InnerEventThere(ctx, events, 0, groups, g, j)
    decreases n
  {
    if n == 0 {
      assert groups[..0] == [];
    } else {
      var group := groups[n - 1];
      var before, items := GroupWork(groups[..n - 1]), ItemWork(group, 0);
      SplitGroups(groups, n);
      DoAllAppend(ctx, before, [Header(group.index)] + items);
      HeaderYieldsNothing(ctx, group.index, items);
      GroupsYield(ctx, groups, n - 1);
      ItemsYield(ctx, group);
      OneMoreGroup(ctx, groups, n, DoAll(ctx, before).value, DoAll(ctx, items).value);
    }
  }

  lemma {:induction false} GroupWorkSnoc(groups: seq<InnerGroup>, last: InnerGroup)
    ensures GroupWork(groups + [last]) == GroupWork(groups) + ([Header(last.index)] + ItemWork(last, 0))
  {
    var here := [Header(last.index)] + ItemWork(last, 0);
    if groups == [] {
      assert groups + [last] == [last] && [last][1..] == [];
      assert here + GroupWork([]) == here;
    } else {
      assert (groups + [last])[1..] == groups[1..] + [last];
      GroupWorkSnoc(groups[1..], last);
      var head := [Header(groups[0].index)] + ItemWork(groups[0], 0);
      assert head + (GroupWork(groups[1..]) + here) == (head + GroupWork(groups[1..])) + here;
    }
  }

  lemma InnerAfterOuter(ctx: Context, outer: seq<NormalizedEvent>, inner: seq<NormalizedEvent>, groups: seq<InnerGroup>)
    requires forall g, j | 0 <= g < |groups| && 0 <= j < |groups[g].instructions| ::
               InnerEventThere(ctx, inner, 0, groups, g, j)
    ensures forall g, j | 0 <= g < |groups| && 0 <= j < |groups[g].instructions| ::
              InnerEventThere(ctx, outer + inner, |outer|, groups, g, j)
  {
    forall g, j | 0 <= g < |groups| && 0 <= j < |groups[g].instructions|
      ensures InnerEventThere(ctx, outer + inner, |outer|, groups, g, j)
    {
      assert InnerEventThere(ctx, inner, 0, groups, g, j);
      var k := Offset(groups, g) + j;
      assert (outer + inner)[|outer| + k] == inner[k];
    }
  }

  lemma Assembled(cluster: string, slot: u64, info: TransactionInfo, outer: seq<NormalizedEvent>,
                  inner: seq<NormalizedEvent>)
    requires MessageOf(info).Some? && |outer| == OuterCount(info) && |inner| == Offset(Groups(info), |Groups(info)|)
    requires forall i | 0 <= i < |outer| ::
               IsEventOf(ContextOf(cluster, slot, info), outer[i], i, None, MessageOf(info).value.instructions[i])
    requires forall g, j | 0 <= g < |Groups(info)| && 0 <= j < |Groups(info)[g].instructions| ::
               InnerEventThere(ContextOf(cluster, slot, info), inner, 0, Groups(info), g, j)
    ensures FannedOut(cluster, slot, info, outer + inner)
  {
    InnerAfterOuter(ContextOf(cluster, slot, info), outer, inner, Groups(info));
    assert forall i | 0 <= i < |outer| :: (outer + inner)[i] == outer[i];
  }

  /** Successful conversion puts every instruction's event in its place. */
  lemma InstructionsFanOut(cluster: string, slot: u64, info: TransactionInfo)
    requires DoAll(ContextOf(cluster, slot, info), AllWork(info)).Ok?
    ensures FannedOut(cluster, slot, info, DoAll(ContextOf(cluster, slot, info), AllWork(info)).value)
    ensures Placed(cluster, slot, info, DoAll(ContextOf(cluster, slot, info), AllWork(info)).value)
  {
    if MessageOf(info).Some? {
      var ctx, groups := ContextOf(cluster, slot, info), Groups(info);
      var instructions := MessageOf(info).value.instructions;
      var outer, inner := OuterWork(instructions, 0), GroupWork(groups);
      DoAllAppend(ctx, outer, inner);
      OuterYields(ctx, instructions);
      assert groups[..|groups|] == groups;
      GroupsYield(ctx, groups, |groups|);
      Assembled(cluster, slot, info, DoAll(ctx, outer).value, DoAll(ctx, inner).value);
    }
    FannedOutIsPlaced(cluster, slot, info, DoAll(ContextOf(cluster, slot, info), AllWork(info)).value);
  }

  // ---------------------------------------------------------------- the whole transaction

  method NormalizeProtoTransaction(cluster: string, slot: u64, transaction: Option<TransactionInfo>)
    returns (r: Result<seq<NormalizedEvent>, ProtoError>)
    ensures r.Ok? <==> transaction.Some? && Convertible(cluster, transaction.value)
    ensures r.Ok? ==>
              && r.value != []
              && r.value[0]
                   == NormalizedEvent(Transaction(cluster, slot, transaction.value.signature, transaction.value.index),
                                      Payload(None, transaction.value.body))
              && FannedOut(cluster, slot, transaction.value, r.value[1..])
              && Placed(cluster, slot, transaction.value, r.value[1..])
    ensures transaction.None? ==> r == Err(MissingNestedField("transaction.transaction"))
    ensures transaction.Some? && transaction.value.signature == "" ==> r == Err(MissingBytes("transaction.signature"))
    ensures transaction.Some? && transaction.value.signature != "" && Blank(transaction.value.signature) ==>
              r == Err(Normalize(MissingField("signature")))
    ensures transaction.Some? && !Blank(transaction.value.signature) && Blank(cluster) ==>
              r == Err(Normalize(InvalidIdentity("cluster")))
    ensures r.Err? && transaction.Some? && !Blank(transaction.value.signature) && !Blank(cluster) ==>
              r == DoAll(ContextOf(cluster, slot, transaction.value), AllWork(transaction.value))
  {
    if transaction.None? { return Err(MissingNestedField("transaction.transaction")); }
    var info := transaction.value;
    if info.signature == "" { return Err(MissingBytes("transaction.signature")); }
    if Blank(info.signature) { return Err(Normalize(MissingField("signature"))); }
    var event := BuildEvent(Transaction(cluster, slot, info.signature, info.index), Payload(None, info.body));
    if event.Err? { return Err(event.error); }
    var instructions := NormalizeProtoInstructions(cluster, slot, info);
    InstructionsOkIff(cluster, slot, info);
    if instructions.Err? { return Err(instructions.error); }
    InstructionsFanOut(cluster, slot, info);
    r := Ok([event.value] + instructions.value);
    assert r.value[1..] == instructions.value;
  }

  // ---------------------------------------------------------------- identities

  /** Two groups claim the same outer instruction and run the same program at the same inner position. */
  ghost predicate Clash(keys: seq<string>, groups: seq<InnerGroup>, g: nat, h: nat, j: nat) {
    && g < |groups| && h < |groups| && g != h && groups[g].index == groups[h].index
    && j < |groups[g].instructions| && j < |groups[h].instructions|
    && var p, q := groups[g].instructions[j].programIdIndex, groups[h].instructions[j].programIdIndex;
       p < |keys| && q < |keys| && keys[p] == keys[q]
  }

  ghost predicate IdentitiesDistinct(events: seq<NormalizedEvent>) {
    forall x, y | 0 <= x < y < |events| :: events[x].identity != events[y].identity
  }

  lemma {:induction false} OffsetGrows(groups: seq<InnerGroup>, g: nat, h: nat)
    requires g <= h <= |groups|
    ensures Offset(groups, g) <= Offset(groups, h)
    ensures g < h ==> Offset(groups, g) + |groups[g].instructions| <= Offset(groups, h)
  {
    if g < h { OffsetGrows(groups, g, h - 1); }
  }

  /** The group and inner position of the `k`-th inner instruction. */
  lemma {:induction false} Locate(groups: seq<InnerGroup>, n: nat, k: nat) returns (g: nat, j: nat)
    requires n <= |groups| && k < Offset(groups, n)
    ensures g < n && j < |groups[g].instructions| && k == Offset(groups, g) + j
  {
    if k < Offset(groups, n - 1) {
      g, j := Locate(groups, n - 1, k);
    } else {
      g, j := n - 1, k - Offset(groups, n - 1);
    }
  }

  /** Two instruction events of equal identity stand at inner positions of two clashing groups. */
  lemma EqualMeansClash(cluster: string, slot: u64, info: TransactionInfo, events: seq<NormalizedEvent>, x: nat, y: nat)
    returns (g: nat, h: nat, j: nat)
    requires FannedOut(cluster, slot, info, events)
    requires x < y < |events| && events[x].identity == events[y].identity
    ensures Clash(AccountKeys(info), UsedGroups(info), g, h, j)
  {
    var n, groups := OuterCount(info), UsedGroups(info);
    assert x < n ==> events[x].identity.innerInstructionIndex.None?;
    assert y >= n;
    var l: nat;
    h, l := Locate(groups, |groups|, y - n);
    assert InnerEventThere(ContextOf(cluster, slot, info), events, n, groups, h, l);
    assert x >= n;
    g, j := Locate(groups, |groups|, x - n);
    assert InnerEventThere(ContextOf(cluster, slot, info), events, n, groups, g, j);
  }

  lemma ClashMeansEqual(cluster: string, slot: u64, info: TransactionInfo, events: seq<NormalizedEvent>, g: nat, h: nat,
                        j: nat)
    requires FannedOut(cluster, slot, info, events) && g < h
    requires Clash(AccountKeys(info), UsedGroups(info), g, h, j)
    ensures !IdentitiesDistinct(events)
  {
    var ctx, n, groups := ContextOf(cluster, slot, info), OuterCount(info), UsedGroups(info);
    OffsetGrows(groups, g, h);
    assert InnerEventThere(ctx, events, n, groups, g, j) && InnerEventThere(ctx, events, n, groups, h, j);
    var x, y := n + Offset(groups, g) + j, n + Offset(groups, h) + j;
    assert events[x].identity == events[y].identity;
  }

  /** The identities of one transaction are pairwise distinct exactly when no two groups clash. */
  lemma IdentitiesDistinctIff(cluster: string, slot: u64, info: TransactionInfo, events: seq<NormalizedEvent>)
    requires events != [] && events[0].identity.Transaction? && FannedOut(cluster, slot, info, events[1..])
    ensures IdentitiesDistinct(events) <==> forall g, h, j :: !Clash(AccountKeys(info), UsedGroups(info), g, h, j)
  {
    var rest := events[1..];
    if g: nat, h: nat, j: nat :| Clash(AccountKeys(info), UsedGroups(info), g, h, j) {
      if g < h { ClashMeansEqual(cluster, slot, info, rest, g, h, j); }
      else { ClashMeansEqual(cluster, slot, info, rest, h, g, j); }
      var x, y :| 0 <= x < y < |rest| && rest[x].identity == rest[y].identity;
      assert events[x + 1].identity == events[y + 1].identity;
    } else {
      forall x, y | 0 <= x < y < |events| ensures events[x].identity != events[y].identity {
        if events[x].identity == events[y].identity {
          IsInstruction(cluster, slot, info, rest, y - 1);
          var g, h, j := EqualMeansClash(cluster, slot, info, rest, x - 1, y - 1);
        }
      }
    }
  }

  lemma IsInstruction(cluster: string, slot: u64, info: TransactionInfo, events: seq<NormalizedEvent>, y: nat)
    requires FannedOut(cluster, slot, info, events) && y < |events|
    ensures events[y].identity.Instruction?
  {
    var n, groups := OuterCount(info), UsedGroups(info);
    if y >= n {
      var g, j := Locate(groups, |groups|, y - n);
      assert InnerEventThere(ContextOf(cluster, slot, info), events, n, groups, g, j);
    }
  }

  /** With one group per outer instruction, all event ids of a transaction differ. */
  lemma OneGroupPerInstructionIsEnough(cluster: string, slot: u64, info: TransactionInfo,
                                       events: seq<NormalizedEvent>, digest: string -> string, x: nat, y: nat)
    requires events != [] && events[0].identity.Transaction? && FannedOut(cluster, slot, info, events[1..])
    requires forall g, h | 0 <= g < h < |UsedGroups(info)| :: UsedGroups(info)[g].index != UsedGroups(info)[h].index
    requires Injective(digest) && x < y < |events|
    ensures events[x].identity != events[y].identity
    ensures CanonicalKey(events[x].identity) != CanonicalKey(events[y].identity)
    ensures EventId(digest, events[x].identity) != EventId(digest, events[y].identity)
  {
    forall g: nat, h: nat, j: nat ensures !Clash(AccountKeys(info), UsedGroups(info), g, h, j) {
    }
    IdentitiesDistinctIff(cluster, slot, info, events);
    CanonicalKeyInjective(events[x].identity, events[y].identity);
    EventIdInjective(digest, events[x].identity, events[y].identity);
  }
}
