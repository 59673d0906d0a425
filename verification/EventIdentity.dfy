/** Typed event identities and the canonical key from which an event id is computed. */
module EventIdentities {
  import opened Base

  const EVENT_IDENTITY_VERSION: u16 := 1

  datatype SlotStatus = Processed | Confirmed | Finalized | Dead

  datatype EventIdentity =
    | Account(cluster: string, slot: u64, account: string, writeVersion: u64, txnSignature: Option<string>,
              isStartup: bool)
    | Block(cluster: string, slot: u64, blockhash: string)
    | Entry(cluster: string, slot: u64, index: u64)
    | Instruction(cluster: string, slot: u64, signature: string, transactionIndex: u64, instructionIndex: u16,
                  innerInstructionIndex: Option<u16>, programId: string)
    | Slot(cluster: string, slot: u64, status: SlotStatus)
    | Transaction(cluster: string, slot: u64, signature: string, index: u64)

  /** Of a payload only the `parent` number is ever read; the rest is opaque. */
  datatype Payload = Payload(parent: Option<u64>, body: string)

  datatype NormalizedEvent = NormalizedEvent(identity: EventIdentity, payload: Payload)

  // ---------------------------------------------------------------- rendering

  function ReplaceChar(s: string, c: char, rep: string): string {
    if s == "" then "" else (if s[0] == c then rep else [s[0]]) + ReplaceChar(s[1..], c, rep)
  }

  /** Three passes, the backslash first. */
  function EscapeKeyValue(value: string): string {
    ReplaceChar(ReplaceChar(ReplaceChar(value, '\\', "\\\\"), '|', "\\|"), '=', "\\=")
  }

  function EncodeOptional(value: Option<string>): string {
    match value
    case Some(v) => "some:" + EscapeKeyValue(v)
    case None => "none"
  }

  function Decimal(n: nat): string {
    if n < 10 then [Digit(n)] else Decimal(n / 10) + [Digit(n % 10)]
  }

  function Digit(d: nat): char
    requires d < 10
  {
    '0' + d as char
  }

  function StatusText(status: SlotStatus): string {
    match status
    case Processed => "processed"
    case Confirmed => "confirmed"
    case Finalized => "finalized"
    case Dead => "dead"
  }

  function InnerIndexText(index: Option<u16>): string {
    if index.Some? then Decimal(index.value) else "<none>"
  }

  function KindText(id: EventIdentity): string {
    match id
    case Account(_, _, _, _, _, _) => "account"
    case Block(_, _, _) => "block"
    case Entry(_, _, _) => "entry"
    case Instruction(_, _, _, _, _, _, _) => "instruction"
    case Slot(_, _, _) => "slot"
    case Transaction(_, _, _, _) => "transaction"
  }

  function BoolText(b: bool): string { if b then "true" else "false" }

  /** The `name=value` fields of the key, in the order in which they are written. */
  function Fields(id: EventIdentity): seq<string> {
    ["v=" + Decimal(EVENT_IDENTITY_VERSION), "kind=" + KindText(id),
     "cluster=" + EscapeKeyValue(id.cluster), "slot=" + Decimal(id.slot)] + OwnFields(id)
  }

  /** The fields that only one variant has. */
  function OwnFields(id: EventIdentity): seq<string> {
    match id
    case Account(_, _, account, writeVersion, txnSignature, isStartup) =>
      ["account=" + EscapeKeyValue(account), "write_version=" + Decimal(writeVersion),
       "txn_signature=" + EncodeOptional(txnSignature), "is_startup=" + BoolText(isStartup)]
    case Block(_, _, blockhash) =>
      ["blockhash=" + EscapeKeyValue(blockhash)]
    case Entry(_, _, index) =>
      ["index=" + Decimal(index)]
    case Instruction(_, _, signature, transactionIndex, instructionIndex, inner, programId) =>
      ["signature=" + EscapeKeyValue(signature), "transaction_index=" + Decimal(transactionIndex),
       "instruction_index=" + Decimal(instructionIndex), "inner_instruction_index=" + InnerIndexText(inner),
       "program_id=" + EscapeKeyValue(programId)]
    case Slot(_, _, status) =>
      ["status=" + StatusText(status)]
    case Transaction(_, _, signature, index) =>
      ["signature=" + EscapeKeyValue(signature), "index=" + Decimal(index)]
  }

  function JoinBars(fields: seq<string>): string {
    if fields == [] then ""
    else if |fields| == 1 then fields[0]
    else fields[0] + ("|" + JoinBars(fields[1..]))
  }

  function CanonicalKey(id: EventIdentity): string {
    JoinBars(Fields(id))
  }

  /** The id under a given hexadecimal digest. */
  function EventId(digest: string -> string, id: EventIdentity): string {
    "v1:" + digest(CanonicalKey(id))
  }

  ghost predicate Injective(digest: string -> string) {
    forall a, b :: digest(a) == digest(b) ==> a == b
  }

  // ---------------------------------------------------------------- unique readability

  /** Every bar is escaped, and no escape is left dangling at the end. */
  predicate Sealed(s: string) {
    if s == "" then true
    else if s[0] == '\\' then |s| >= 2 && Sealed(s[2..])
    else s[0] != '|' && Sealed(s[1..])
  }

  predicate BarOrEnd(tail: string) {
    tail == "" || tail[0] == '|'
  }

  /** A sealed text ends where the first unescaped bar stands, so it can be read off the front of a key. */
  lemma {:induction false} SealedPrefixUnique(a: string, b: string, s: string, t: string)
    requires Sealed(a) && Sealed(b) && BarOrEnd(s) && BarOrEnd(t)
    requires a + s == b + t
    ensures a == b && s == t
    decreases |a|
  {
    assert a == "" ==> a + s == s;
    assert b == "" ==> b + t == t;
    if a != "" && b != "" {
      assert a[0] == (a + s)[0] == (b + t)[0] == b[0];
      var n := if a[0] == '\\' then 2 else 1;
      assert (a + s)[..n] == a[..n] && (b + t)[..n] == b[..n];
      assert (a + s)[n..] == a[n..] + s && (b + t)[n..] == b[n..] + t;
      SealedPrefixUnique(a[n..], b[n..], s, t);
      assert a == a[..n] + a[n..] && b == b[..n] + b[n..];
    }
  }

  lemma {:induction false} SealedConcat(a: string, b: string)
    requires Sealed(a) && Sealed(b)
    ensures Sealed(a + b)
    decreases |a|
  {
    if a == "" {
      assert a + b == b;
    } else {
      var n := if a[0] == '\\' then 2 else 1;
      assert (a + b)[n..] == a[n..] + b;
      SealedConcat(a[n..], b);
    }
  }

  ghost predicate AllSealed(fields: seq<string>) {
    forall i :: 0 <= i < |fields| ==> Sealed(fields[i])
  }

  lemma {:induction false} JoinBarsInjective(a: seq<string>, b: seq<string>)
    requires AllSealed(a) && AllSealed(b) && a != [] && b != []
    requires JoinBars(a) == JoinBars(b)
    ensures a == b
    decreases |a|
  {
    var s := if |a| == 1 then "" else "|" + JoinBars(a[1..]);
    var t := if |b| == 1 then "" else "|" + JoinBars(b[1..]);
    assert JoinBars(a) == a[0] + s && JoinBars(b) == b[0] + t;
    SealedPrefixUnique(a[0], b[0], s, t);
    if |a| > 1 {
      assert |b| > 1;
      assert JoinBars(a[1..]) == s[1..] == t[1..] == JoinBars(b[1..]);
      JoinBarsInjective(a[1..], b[1..]);
    }
    assert a == [a[0]] + a[1..] && b == [b[0]] + b[1..];
  }

  // ---------------------------------------------------------------- the field encoders

  /** The one-pass form of the three replacements. */
  function EscapeOne(c: char): string {
    if c == '\\' || c == '|' || c == '=' then ['\\', c] else [c]
  }

  lemma {:induction false} ReplaceConcat(a: string, b: string, c: char, rep: string)
    ensures ReplaceChar(a + b, c, rep) == ReplaceChar(a, c, rep) + ReplaceChar(b, c, rep)
  {
    if a == "" {
      assert a + b == b;
    } else {
      ReplaceConcat(a[1..], b, c, rep);
      assert (a + b)[1..] == a[1..] + b;
      var head := if a[0] == c then rep else [a[0]];
      var x, y := ReplaceChar(a[1..], c, rep), ReplaceChar(b, c, rep);
      assert head + (x + y) == (head + x) + y;
    }
  }

  lemma ReplaceTwo(x: char, y: char, c: char, rep: string)
    ensures ReplaceChar([x], c, rep) == if x == c then rep else [x]
    ensures ReplaceChar([x, y], c, rep) == (if x == c then rep else [x]) + (if y == c then rep else [y])
  {
    assert [x][1..] == "";
    assert [x, y][1..] == [y];
    assert [y][1..] == "";
  }

  /** Replacing the backslash first makes the three passes act on each character alone. */
  lemma EscapeUnfold(s: string)
    requires s != ""
    ensures EscapeKeyValue(s) == EscapeOne(s[0]) + EscapeKeyValue(s[1..])
    ensures EscapeOne(s[0]) == if s[0] in {'\\', '|', '='} then "\\" + [s[0]] else [s[0]]
  {
    var head, tail := [s[0]], s[1..];
    assert s == head + tail;
    ReplaceConcat(head, tail, '\\', "\\\\");
    var head1, tail1 := ReplaceChar(head, '\\', "\\\\"), ReplaceChar(tail, '\\', "\\\\");
    ReplaceConcat(head1, tail1, '|', "\\|");
    var head2, tail2 := ReplaceChar(head1, '|', "\\|"), ReplaceChar(tail1, '|', "\\|");
    ReplaceConcat(head2, tail2, '=', "\\=");
    var c := s[0];
    ReplaceTwo(c, c, '\\', "\\\\");
    ReplaceTwo(c, c, '|', "\\|");
    ReplaceTwo(c, c, '=', "\\=");
    ReplaceTwo('\\', '|', '=', "\\=");
  }

  lemma {:induction false} EscapedIsSealed(s: string)
    ensures Sealed(EscapeKeyValue(s))
  {
    if s != "" {
      EscapeUnfold(s);
      EscapedIsSealed(s[1..]);
      var e := EscapeKeyValue(s);
      var n := |EscapeOne(s[0])|;
      assert e[n..] == EscapeKeyValue(s[1..]);
    }
  }

  lemma {:induction false} EscapeInjective(s: string, t: string)
    requires EscapeKeyValue(s) == EscapeKeyValue(t)
    ensures s == t
  {
    if s != "" { EscapeUnfold(s); }
    if t != "" { EscapeUnfold(t); }
    if s != "" && t != "" {
      var e := EscapeKeyValue(s);
      assert e[0] == EscapeOne(s[0])[0] == EscapeOne(t[0])[0];
      if e[0] == '\\' {
        assert e[1] == s[0] == t[0];
      }
      var n := |EscapeOne(s[0])|;
      assert e[n..] == EscapeKeyValue(s[1..]) && e[n..] == EscapeKeyValue(t[1..]);
      EscapeInjective(s[1..], t[1..]);
      assert s == [s[0]] + s[1..] && t == [t[0]] + t[1..];
    }
  }

  predicate IsDigit(c: char) { '0' <= c <= '9' }

  lemma {:induction false} DecimalDigits(n: nat)
    ensures Decimal(n) != "" && forall i :: 0 <= i < |Decimal(n)| ==> IsDigit(Decimal(n)[i])
  {
    if n >= 10 { DecimalDigits(n / 10); }
  }

  lemma {:induction false} DecimalInjective(m: nat, n: nat)
    requires Decimal(m) == Decimal(n)
    ensures m == n
  {
    DecimalDigits(m / 10);
    DecimalDigits(n / 10);
    var d := Decimal(m);
    assert d[|d| - 1] == Digit(m % 10) == Digit(n % 10);
    assert m % 10 == n % 10;
    if m >= 10 {
      assert |d| > 1 && n >= 10;
      assert d[..|d| - 1] == Decimal(m / 10) == Decimal(n / 10);
      DecimalInjective(m / 10, n / 10);
    }
  }

  /** The number that a text of decimal digits stands for. */
  function NumberOf(digits: string): int {
    if digits == "" then 0 else 10 * NumberOf(digits[..|digits| - 1]) + (digits[|digits| - 1] as int - '0' as int)
  }

  /** The decimal text of a number stands for it, and has no leading zero. */
  lemma {:induction false} DecimalReads(n: nat)
    ensures NumberOf(Decimal(n)) == n && (Decimal(n)[0] == '0' ==> Decimal(n) == "0")
  {
    if n < 10 {
      assert Decimal(n)[..0] == "";
    } else {
      DecimalReads(n / 10);
      DecimalDigits(n / 10);
      assert Decimal(n)[..|Decimal(n)| - 1] == Decimal(n / 10);
      if n / 10 < 10 { assert Decimal(n / 10) == [Digit(n / 10)]; }
    }
  }

  /** No backslash and no bar. */
  ghost predicate Plain(s: string) {
    forall i :: 0 <= i < |s| ==> s[i] != '\\' && s[i] != '|'
  }

  lemma {:induction false} PlainIsSealed(s: string)
    requires Plain(s)
    ensures Sealed(s)
  {
    if s != "" { PlainIsSealed(s[1..]); }
  }

  lemma FieldSealed(name: string, value: string)
    requires Plain(name) && Sealed(value)
    ensures Sealed(name + value)
  {
    PlainIsSealed(name);
    SealedConcat(name, value);
  }

  lemma EscapedField(name: string, value: string)
    requires Plain(name)
    ensures Sealed(name + EscapeKeyValue(value))
  {
    EscapedIsSealed(value);
    FieldSealed(name, EscapeKeyValue(value));
  }

  lemma DecimalField(name: string, n: nat)
    requires Plain(name)
    ensures Sealed(name + Decimal(n))
  {
    DecimalDigits(n);
    PlainIsSealed(Decimal(n));
    FieldSealed(name, Decimal(n));
  }

  lemma OptionalField(name: string, value: Option<string>)
    requires Plain(name)
    ensures Sealed(name + EncodeOptional(value))
  {
    if value.Some? {
      EscapedField("some:", value.value);
    } else {
      PlainIsSealed("none");
    }
    FieldSealed(name, EncodeOptional(value));
  }

  lemma InnerIndexField(name: string, index: Option<u16>)
    requires Plain(name)
    ensures Sealed(name + InnerIndexText(index))
  {
    if index.Some? {
      DecimalField(name, index.value);
    } else {
      PlainIsSealed(name + "<none>");
    }
  }

  lemma PlainField(name: string, value: string)
    requires Plain(name) && Plain(value)
    ensures Sealed(name + value)
  {
    PlainIsSealed(name + value);
  }

  lemma NamesPlain()
    ensures Plain("cluster=") && Plain("slot=") && Plain("account=") && Plain("write_version=")
    ensures Plain("txn_signature=") && Plain("is_startup=") && Plain("blockhash=") && Plain("index=")
    ensures Plain("signature=") && Plain("status=") && Plain("program_id=") && Plain("kind=")
  {
  }

  lemma IndexNamesPlain()
    ensures Plain("transaction_index=") && Plain("instruction_index=") && Plain("inner_instruction_index=")
  {
  }

  lemma AccountFieldsSealed(id: EventIdentity)
    requires id.Account?
    ensures AllSealed(OwnFields(id))
  {
    NamesPlain();
    EscapedField("account=", id.account);
    DecimalField("write_version=", id.writeVersion);
    OptionalField("txn_signature=", id.txnSignature);
    PlainField("is_startup=", BoolText(id.isStartup));
  }

  lemma InstructionFieldsSealed(id: EventIdentity)
    requires id.Instruction?
    ensures AllSealed(OwnFields(id))
  {
    NamesPlain();
    IndexNamesPlain();
    EscapedField("signature=", id.signature);
    DecimalField("transaction_index=", id.transactionIndex);
    DecimalField("instruction_index=", id.instructionIndex);
    InnerIndexField("inner_instruction_index=", id.innerInstructionIndex);
    EscapedField("program_id=", id.programId);
  }

  lemma OwnFieldsSealed(id: EventIdentity)
    ensures AllSealed(OwnFields(id))
  {
    NamesPlain();
    match id
    case Account(_, _, _, _, _, _) => AccountFieldsSealed(id);
    case Block(_, _, blockhash) => EscapedField("blockhash=", blockhash);
    case Entry(_, _, index) => DecimalField("index=", index);
    case Instruction(_, _, _, _, _, _, _) => InstructionFieldsSealed(id);
    case Slot(_, _, status) => PlainField("status=", StatusText(status));
    case Transaction(_, _, signature, index) =>
      EscapedField("signature=", signature);
      DecimalField("index=", index);
  }

  lemma FieldsSealed(id: EventIdentity)
    ensures AllSealed(Fields(id))
  {
    NamesPlain();
    DecimalField("v=", EVENT_IDENTITY_VERSION);
    PlainField("kind=", KindText(id));
    EscapedField("cluster=", id.cluster);
    DecimalField("slot=", id.slot);
    OwnFieldsSealed(id);
  }

  // ---------------------------------------------------------------- equal fields, equal identities

  lemma SameEscaped(name: string, a: string, b: string)
    requires name + EscapeKeyValue(a) == name + EscapeKeyValue(b)
    ensures a == b
  {
    DropName(name, EscapeKeyValue(a), EscapeKeyValue(b));
    EscapeInjective(a, b);
  }

  lemma DropName(name: string, a: string, b: string)
    requires name + a == name + b
    ensures a == b
  {
    assert a == (name + a)[|name|..] && b == (name + b)[|name|..];
  }

  lemma SameDecimal(name: string, a: nat, b: nat)
    requires name + Decimal(a) == name + Decimal(b)
    ensures a == b
  {
    DropName(name, Decimal(a), Decimal(b));
    DecimalInjective(a, b);
  }

  lemma SameOptional(name: string, a: Option<string>, b: Option<string>)
    requires name + EncodeOptional(a) == name + EncodeOptional(b)
    ensures a == b
  {
    DropName(name, EncodeOptional(a), EncodeOptional(b));
    assert EncodeOptional(a)[0] == EncodeOptional(b)[0];
    if a.Some? && b.Some? {
      SameEscaped("some:", a.value, b.value);
    }
  }

  lemma SameInnerIndex(name: string, a: Option<u16>, b: Option<u16>)
    requires name + InnerIndexText(a) == name + InnerIndexText(b)
    ensures a == b
  {
    DropName(name, InnerIndexText(a), InnerIndexText(b));
    if a.Some? { DecimalDigits(a.value); }
    if b.Some? { DecimalDigits(b.value); }
    assert a.Some? <==> IsDigit(InnerIndexText(a)[0]);
    assert b.Some? <==> IsDigit(InnerIndexText(b)[0]);
    if a.Some? && b.Some? {
      DecimalInjective(a.value, b.value);
    }
  }

  /** The first two characters of the kind tell the six variants apart. */
  lemma SameKind(a: EventIdentity, b: EventIdentity)
    requires KindText(a) == KindText(b)
    ensures a.Account? == b.Account? && a.Block? == b.Block? && a.Entry? == b.Entry?
    ensures a.Instruction? == b.Instruction? && a.Slot? == b.Slot? && a.Transaction? == b.Transaction?
  {
    assert KindText(a)[0] == KindText(b)[0];
    assert KindText(a)[1] == KindText(b)[1];
  }

  lemma StatusTextInjective(a: SlotStatus, b: SlotStatus)
    requires StatusText(a) == StatusText(b)
    ensures a == b
  {
    assert StatusText(a)[0] == StatusText(b)[0];
  }

  lemma OwnFieldsInjective(a: EventIdentity, b: EventIdentity)
    requires KindText(a) == KindText(b) && OwnFields(a) == OwnFields(b)
    requires a.cluster == b.cluster && a.slot == b.slot
    ensures a == b
  {
    SameKind(a, b);
    var f, g := OwnFields(a), OwnFields(b);
    match a
    case Account(_, _, account, writeVersion, txnSignature, isStartup) =>
      assert f[0] == g[0] && f[1] == g[1] && f[2] == g[2] && f[3] == g[3];
      SameEscaped("account=", account, b.account);
      SameDecimal("write_version=", writeVersion, b.writeVersion);
      SameOptional("txn_signature=", txnSignature, b.txnSignature);
      DropName("is_startup=", BoolText(isStartup), BoolText(b.isStartup));
      assert BoolText(isStartup)[0] == BoolText(b.isStartup)[0];
    case Block(_, _, blockhash) =>
      assert f[0] == g[0];
      SameEscaped("blockhash=", blockhash, b.blockhash);
    case Entry(_, _, index) =>
      assert f[0] == g[0];
      SameDecimal("index=", index, b.index);
    case Instruction(_, _, signature, transactionIndex, instructionIndex, inner, programId) =>
      assert f[0] == g[0] && f[1] == g[1] && f[2] == g[2] && f[3] == g[3] && f[4] == g[4];
      SameEscaped("signature=", signature, b.signature);
      SameDecimal("transaction_index=", transactionIndex, b.transactionIndex);
      SameDecimal("instruction_index=", instructionIndex, b.instructionIndex);
      SameInnerIndex("inner_instruction_index=", inner, b.innerInstructionIndex);
      SameEscaped("program_id=", programId, b.programId);
    case Slot(_, _, status) =>
      assert f[0] == g[0];
      DropName("status=", StatusText(status), StatusText(b.status));
      StatusTextInjective(status, b.status);
    case Transaction(_, _, signature, index) =>
      assert f[0] == g[0] && f[1] == g[1];
      SameEscaped("signature=", signature, b.signature);
      SameDecimal("index=", index, b.index);
  }

  lemma FieldsInjective(a: EventIdentity, b: EventIdentity)
    requires Fields(a) == Fields(b)
    ensures a == b
  {
    var f, g := Fields(a), Fields(b);
    assert f[1] == g[1] && f[2] == g[2] && f[3] == g[3];
    DropName("kind=", KindText(a), KindText(b));
    SameEscaped("cluster=", a.cluster, b.cluster);
    SameDecimal("slot=", a.slot, b.slot);
    assert OwnFields(a) == f[4..] && OwnFields(b) == g[4..];
    OwnFieldsInjective(a, b);
  }

  // ---------------------------------------------------------------- the layout of the key

  /** What follows the slot in the key. */
  function Layout(id: EventIdentity): string {
    match id
    case Account(_, _, account, writeVersion, txnSignature, isStartup) =>
      "|account=" + (EscapeKeyValue(account) + ("|write_version=" + (Decimal(writeVersion)
        + ("|txn_signature=" + ((if txnSignature.None? then "none" else "some:" + EscapeKeyValue(txnSignature.value))
        + ("|is_startup=" + if isStartup then "true" else "false"))))))
    case Block(_, _, blockhash) =>
      "|blockhash=" + EscapeKeyValue(blockhash)
    case Entry(_, _, index) =>
      "|index=" + Decimal(index)
    case Instruction(_, _, signature, transactionIndex, instructionIndex, inner, programId) =>
      "|signature=" + (EscapeKeyValue(signature) + ("|transaction_index=" + (Decimal(transactionIndex)
        + ("|instruction_index=" + (Decimal(instructionIndex) + ("|inner_instruction_index="
        + ((if inner.None? then "<none>" else Decimal(inner.value))
        + ("|program_id=" + EscapeKeyValue(programId)))))))))
    case Slot(_, _, status) =>
      "|status=" + (match status { case Processed => "processed" case Confirmed => "confirmed"
                                   case Finalized => "finalized" case Dead => "dead" })
    case Transaction(_, _, signature, index) =>
      "|signature=" + (EscapeKeyValue(signature) + ("|index=" + Decimal(index)))
  }

  lemma Regroup(a: string, b: string, c: string)
    ensures a + (b + c) == (a + b) + c
  {
  }

  /** A bar in front of the last field. */
  lemma LastField(bar: string, name: string, value: string)
    requires Barred(bar, name)
    ensures "|" + JoinBars([name + value]) == bar + value
  {
    Regroup("|", name, value);
  }

  /** A bar in front of a field that others follow. */
  lemma BarField(bar: string, name: string, value: string, others: seq<string>, rest: string)
    requires Barred(bar, name) && others != [] && "|" + JoinBars(others) == rest
    ensures "|" + JoinBars([name + value] + others) == bar + (value + rest)
  {
    assert ([name + value] + others)[1..] == others;
    Regroup(name, value, rest);
    Regroup("|", name, value + rest);
  }

  /** `bar` is the name of a field behind a bar. */
  ghost predicate Barred(bar: string, name: string) {
    bar == "|" + name
  }

  lemma TwoFields(b0: string, n0: string, v0: string, b1: string, n1: string, v1: string, others: seq<string>,
                  rest: string)
    requires Barred(b0, n0) && Barred(b1, n1) && others != [] && "|" + JoinBars(others) == rest
    ensures "|" + JoinBars([n0 + v0, n1 + v1] + others) == b0 + (v0 + (b1 + (v1 + rest)))
  {
    BarField(b1, n1, v1, others, rest);
    BarField(b0, n0, v0, [n1 + v1] + others, b1 + (v1 + rest));
    assert [n0 + v0, n1 + v1] + others == [n0 + v0] + ([n1 + v1] + others);
  }

  lemma NamesBarred()
    ensures Barred("|account=", "account=") && Barred("|write_version=", "write_version=")
    ensures Barred("|txn_signature=", "txn_signature=") && Barred("|is_startup=", "is_startup=")
    ensures Barred("|signature=", "signature=") && Barred("|index=", "index=") && Barred("|status=", "status=")
    ensures Barred("|blockhash=", "blockhash=") && Barred("|cluster=", "cluster=") && Barred("|slot=", "slot=")
    ensures Barred("|kind=", "kind=")
  {
  }

  lemma IndexNamesBarred()
    ensures Barred("|inner_instruction_index=", "inner_instruction_index=") && Barred("|program_id=", "program_id=")
    ensures Barred("|instruction_index=", "instruction_index=") && Barred("|transaction_index=", "transaction_index=")
  {
  }

  lemma AccountLayout(a: string, w: string, t: string, b: string)
    ensures "|" + JoinBars(["account=" + a, "write_version=" + w, "txn_signature=" + t, "is_startup=" + b])
         == "|account=" + (a + ("|write_version=" + (w + ("|txn_signature=" + (t + ("|is_startup=" + b))))))
  {
    NamesBarred();
    var last := ["is_startup=" + b];
    LastField("|is_startup=", "is_startup=", b);
    BarField("|txn_signature=", "txn_signature=", t, last, "|is_startup=" + b);
    TwoFields("|account=", "account=", a, "|write_version=", "write_version=", w, ["txn_signature=" + t] + last,
              "|txn_signature=" + (t + ("|is_startup=" + b)));
    assert ["account=" + a, "write_version=" + w, "txn_signature=" + t, "is_startup=" + b]
        == ["account=" + a, "write_version=" + w] + (["txn_signature=" + t] + last);
  }

  lemma PositionLayout(i: string, n: string, p: string)
    ensures "|" + JoinBars(["instruction_index=" + i, "inner_instruction_index=" + n, "program_id=" + p])
         == "|instruction_index=" + (i + ("|inner_instruction_index=" + (n + ("|program_id=" + p))))
  {
    IndexNamesBarred();
    LastField("|program_id=", "program_id=", p);
    TwoFields("|instruction_index=", "instruction_index=", i, "|inner_instruction_index=", "inner_instruction_index=",
              n, ["program_id=" + p], "|program_id=" + p);
    assert ["instruction_index=" + i, "inner_instruction_index=" + n, "program_id=" + p]
        == ["instruction_index=" + i, "inner_instruction_index=" + n] + ["program_id=" + p];
  }

  lemma InstructionLayout(s: string, t: string, i: string, n: string, p: string)
    ensures "|" + JoinBars(["signature=" + s, "transaction_index=" + t, "instruction_index=" + i,
                            "inner_instruction_index=" + n, "program_id=" + p])
         == "|signature=" + (s + ("|transaction_index=" + (t + ("|instruction_index=" + (i
            + ("|inner_instruction_index=" + (n + ("|program_id=" + p))))))))
  {
    NamesBarred();
    IndexNamesBarred();
    var own := ["instruction_index=" + i, "inner_instruction_index=" + n, "program_id=" + p];
    PositionLayout(i, n, p);
    TwoFields("|signature=", "signature=", s, "|transaction_index=", "transaction_index=", t, own,
              "|instruction_index=" + (i + ("|inner_instruction_index=" + (n + ("|program_id=" + p)))));
    assert ["signature=" + s, "transaction_index=" + t, "instruction_index=" + i, "inner_instruction_index=" + n,
            "program_id=" + p] == ["signature=" + s, "transaction_index=" + t] + own;
  }

  lemma TransactionLayout(s: string, i: string)
    ensures "|" + JoinBars(["signature=" + s, "index=" + i]) == "|signature=" + (s + ("|index=" + i))
  {
    NamesBarred();
    LastField("|index=", "index=", i);
    BarField("|signature=", "signature=", s, ["index=" + i], "|index=" + i);
    assert ["signature=" + s, "index=" + i] == ["signature=" + s] + ["index=" + i];
  }

  lemma OwnLayout(id: EventIdentity)
    ensures "|" + JoinBars(OwnFields(id)) == Layout(id)
  {
    NamesBarred();
    match id
    case Account(_, _, account, writeVersion, txnSignature, isStartup) =>
      AccountLayout(EscapeKeyValue(account), Decimal(writeVersion), EncodeOptional(txnSignature), BoolText(isStartup));
    case Block(_, _, blockhash) => LastField("|blockhash=", "blockhash=", EscapeKeyValue(blockhash));
    case Entry(_, _, index) => LastField("|index=", "index=", Decimal(index));
    case Instruction(_, _, signature, transactionIndex, instructionIndex, inner, programId) =>
      InstructionLayout(EscapeKeyValue(signature), Decimal(transactionIndex), Decimal(instructionIndex),
                        InnerIndexText(inner), EscapeKeyValue(programId));
    case Slot(_, _, status) => LastField("|status=", "status=", StatusText(status));
    case Transaction(_, _, signature, index) => TransactionLayout(EscapeKeyValue(signature), Decimal(index));
  }

  /** The fields that every key begins with. */
  lemma CommonLayout(kind: string, cluster: string, slot: string, own: seq<string>, rest: string)
    requires own != [] && "|" + JoinBars(own) == rest
    ensures "|" + JoinBars(["v=1", "kind=" + kind, "cluster=" + cluster, "slot=" + slot] + own)
         == "|v=1" + ("|kind=" + (kind + ("|cluster=" + (cluster + ("|slot=" + (slot + rest))))))
  {
    NamesBarred();
    var later := ["cluster=" + cluster, "slot=" + slot] + own;
    var r := "|cluster=" + (cluster + ("|slot=" + (slot + rest)));
    TwoFields("|cluster=", "cluster=", cluster, "|slot=", "slot=", slot, own, rest);
    assert Barred("|v=1", "v=1");
    TwoFields("|v=1", "v=1", "", "|kind=", "kind=", kind, later, r);
    assert "v=1" + "" == "v=1" && "" + ("|kind=" + (kind + r)) == "|kind=" + (kind + r);
    assert ["v=1", "kind=" + kind, "cluster=" + cluster, "slot=" + slot] + own == ["v=1", "kind=" + kind] + later;
  }

  lemma FieldsLayout(id: EventIdentity)
    ensures Fields(id) == ["v=1", "kind=" + KindText(id), "cluster=" + EscapeKeyValue(id.cluster),
                           "slot=" + Decimal(id.slot)] + OwnFields(id)
  {
    assert "v=" + Decimal(EVENT_IDENTITY_VERSION) == "v=1";
  }

  /** Without the bar in front of its first field the joined text is the key. */
  lemma JoinedLayout(id: EventIdentity)
    ensures CanonicalKey(id) == "v=1" + ("|kind=" + (KindText(id) + ("|cluster=" + (EscapeKeyValue(id.cluster)
                              + ("|slot=" + (Decimal(id.slot) + Layout(id)))))))
  {
    var cluster, slot := EscapeKeyValue(id.cluster), Decimal(id.slot);
    OwnLayout(id);
    FieldsLayout(id);
    CommonLayout(KindText(id), cluster, slot, OwnFields(id), Layout(id));
    assert Barred("|v=1", "v=1");
    DropBar(CanonicalKey(id), "v=1", "|kind=" + (KindText(id) + ("|cluster=" + (cluster + ("|slot=" + (slot
                                     + Layout(id)))))));
  }

  lemma DropBar(a: string, b: string, rest: string)
    requires "|" + a == "|" + b + rest
    ensures a == b + rest
  {
    assert ("|" + a)[1..] == a && ("|" + b + rest)[1..] == b + rest;
  }

  /** The key is the text that the format string of its variant describes. */
  lemma KeyLayout(id: EventIdentity)
    ensures var kind := match id { case Account(_, _, _, _, _, _) => "account" case Block(_, _, _) => "block"
                                   case Entry(_, _, _) => "entry" case Instruction(_, _, _, _, _, _, _) => "instruction"
                                   case Slot(_, _, _) => "slot" case Transaction(_, _, _, _) => "transaction" };
            CanonicalKey(id)
              == "v=1" + ("|kind=" + (kind + ("|cluster=" + (EscapeKeyValue(id.cluster)
                 + ("|slot=" + (Decimal(id.slot) + Layout(id)))))))
  {
    JoinedLayout(id);
  }

  // ---------------------------------------------------------------- main results

  /** Two identities have the same canonical key exactly when they are the same identity. */
  lemma CanonicalKeyInjective(a: EventIdentity, b: EventIdentity)
    ensures CanonicalKey(a) == CanonicalKey(b) <==> a == b
  {
    if CanonicalKey(a) == CanonicalKey(b) {
      FieldsSealed(a);
      FieldsSealed(b);
      JoinBarsInjective(Fields(a), Fields(b));
      FieldsInjective(a, b);
    }
  }

  /** With a collision-free digest, event ids identify identities. */
  lemma EventIdInjective(digest: string -> string, a: EventIdentity, b: EventIdentity)
    requires Injective(digest)
    ensures EventId(digest, a) == EventId(digest, b) <==> a == b
    ensures EventId(digest, a)[..3] == "v1:" && EventId(digest, a)[3..] == digest(CanonicalKey(a))
  {
    CanonicalKeyInjective(a, b);
    if EventId(digest, a) == EventId(digest, b) {
      DropName("v1:", digest(CanonicalKey(a)), digest(CanonicalKey(b)));
    }
  }
}
