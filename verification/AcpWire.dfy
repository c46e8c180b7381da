/** Events of the SDK and the updates they become on the ACP wire
    (packages/acp-adapter/src/events-map.ts). */
module AcpWire {
  import opened Wrappers

  // ---- Wire ids -----------------------------------------------------------------------------

  function Digits(n: nat): string
    decreases n
  {
    if n < 10 then [('0' as int + n) as char] else Digits(n / 10) + Digits(n % 10)
  }

  /** How JavaScript prints an integer. */
  function Decimal(n: int): string { if n < 0 then "-" + Digits(-n) else Digits(n) }

  function AcpToolCallId(turnId: int, toolCallId: string): string {
    Decimal(turnId) + ":" + toolCallId
  }

  /** The number a string of digits denotes. */
  function Value(s: string): nat
    requires forall i :: 0 <= i < |s| ==> IsDigit(s[i])
    decreases |s|
  {
    if s == "" then 0
    else
      assert IsDigit(s[|s| - 1]);
      10 * Value(s[..|s| - 1]) + (s[|s| - 1] as int - '0' as int)
  }

  lemma {:induction false} DigitsDenote(n: nat)
    ensures Digits(n) != "" && forall i :: 0 <= i < |Digits(n)| ==> IsDigit(Digits(n)[i])
    ensures Value(Digits(n)) == n
    decreases n
  {
    if n >= 10 {
      DigitsDenote(n / 10);
      DigitsDenote(n % 10);
      var s := Digits(n);
      assert s[..|s| - 1] == Digits(n / 10);
    } else {
      var s := Digits(n);
      assert s[..|s| - 1] == "";
    }
  }

  lemma DecimalSign(n: int)
    ensures Decimal(n) != "" && (n < 0 <==> Decimal(n)[0] == '-')
  {
    DigitsDenote(if n < 0 then -n else n);
    assert n >= 0 ==> IsDigit(Digits(n)[0]);
  }

  lemma DecimalInjective(m: int, n: int)
    requires Decimal(m) == Decimal(n)
    ensures m == n
  {
    DecimalSign(m);
    DecimalSign(n);
    DigitsDenote(if m < 0 then -m else m);
    DigitsDenote(if n < 0 then -n else n);
    if m < 0 {
      assert Decimal(m)[1..] == Digits(-m) && Decimal(n)[1..] == Digits(-n);
    }
  }

  lemma DecimalHasNoColon(n: int)
    ensures ':' !in Decimal(n)
  {
    DigitsDenote(if n < 0 then -n else n);
  }

  /** Distinct calls have distinct wire ids, whatever characters the SDK's own ids contain. */
  lemma WireIdInjective(t: int, c: string, u: int, d: string)
    ensures AcpToolCallId(t, c) == AcpToolCallId(u, d) <==> t == u && c == d
  {
    if AcpToolCallId(t, c) == AcpToolCallId(u, d) {
      DecimalHasNoColon(t);
      DecimalHasNoColon(u);
      SplitAtColon(Decimal(t), c, Decimal(u), d);
      DecimalInjective(t, u);
    }
  }

  function FirstColon(s: string): nat
    decreases |s|
  {
    if s == "" || s[0] == ':' then 0 else 1 + FirstColon(s[1..])
  }

  lemma {:induction false} FirstColonAt(a: string, b: string)
    requires ':' !in a
    ensures FirstColon(a + ":" + b) == |a|
    decreases |a|
  {
    if a == "" {
      assert a + ":" + b == ":" + b;
    } else {
      assert (a + ":" + b)[1..] == a[1..] + ":" + b;
      FirstColonAt(a[1..], b);
    }
  }

  lemma SplitAtColon(a: string, b: string, x: string, y: string)
    requires ':' !in a && ':' !in x && a + ":" + b == x + ":" + y
    ensures a == x && b == y
  {
    var s := a + ":" + b;
    FirstColonAt(a, b);
    FirstColonAt(x, y);
    assert a == s[..|a|] && x == s[..|x|];
    assert b == s[|a| + 1..] && y == s[|x| + 1..];
  }

  // ---- Updates ------------------------------------------------------------------------------

  datatype ToolKind = ReadKind | EditKind | ExecuteKind | FetchKind | ThinkKind | OtherKind

  function InferToolKind(name: string): ToolKind {
    if name in {"Read", "Glob", "Grep"} then ReadKind
    else if name in {"Write", "Edit"} then EditKind
    else if name in {"Bash", "Terminal"} then ExecuteKind
    else if name in {"WebFetch", "WebSearch"} then FetchKind
    else if name == "Think" then ThinkKind
    else OtherKind
  }

  lemma ToolKinds()
    ensures InferToolKind("Read") == InferToolKind("Glob") == InferToolKind("Grep") == ReadKind
    ensures InferToolKind("Write") == InferToolKind("Edit") == EditKind
    ensures InferToolKind("Bash") == InferToolKind("Terminal") == ExecuteKind
    ensures InferToolKind("WebFetch") == InferToolKind("WebSearch") == FetchKind
    ensures InferToolKind("Think") == ThinkKind && InferToolKind("Task") == OtherKind
  {}

  datatype Content = TextContent(text: string) | DisplayContent(body: string)

  datatype Status = Pending | InProgress | Completed | Failed

  /** What a display block contributes: an entry of its own in the card, or a plan. */
  datatype Display = CardDisplay(body: string) | TodoList(items: seq<(string, string)>) | NoDisplay

  datatype PlanEntry = PlanEntry(content: string, status: Status)

  /** Session updates. A `tool_call` creates a card; the four kinds of `tool_call_update` change
      one that the client must already have. */
  datatype Update =
    | MessageChunk(text: string)
    | ThoughtChunk(text: string)
    | UserChunk(text: string)
    | Create(id: string, title: string, kind: ToolKind, status: Status, content: seq<Content>)
    | DeltaUpdate(id: string, text: string)
    | UpgradeUpdate(id: string, title: string, kind: ToolKind, content: seq<Content>)
    | ProgressUpdate(id: string, title: string)
    | ResultUpdate(id: string, status: Status, content: seq<Content>)
    | Plan(entries: seq<PlanEntry>)

  /** `args` is the stringified argument value. */
  datatype ToolStarted =
    ToolStarted(turnId: int, callId: string, name: string, description: Option<string>,
                args: string, display: Option<Display>)

  datatype ToolDelta =
    ToolDelta(turnId: int, callId: string, name: Option<string>, argsPart: Option<string>)

  function CardContent(e: ToolStarted): seq<Content> {
    (if e.display.Some? && e.display.value.CardDisplay?
     then [DisplayContent(e.display.value.body)] else [])
    + [TextContent(e.args)]
  }

  function ToolCallStart(e: ToolStarted): Update {
    Create(AcpToolCallId(e.turnId, e.callId), e.description.GetOr(e.name), InferToolKind(e.name),
           InProgress, CardContent(e))
  }

  function ToolCallStartedUpgrade(e: ToolStarted): Update {
    UpgradeUpdate(AcpToolCallId(e.turnId, e.callId), e.description.GetOr(e.name),
                  InferToolKind(e.name), CardContent(e))
  }

  function ToolCallLazyCreate(e: ToolDelta): Update {
    Create(AcpToolCallId(e.turnId, e.callId), e.name.GetOr("tool"),
           if e.name.Some? && e.name.value != "" then InferToolKind(e.name.value) else OtherKind,
           Pending, [TextContent(e.argsPart.GetOr(""))])
  }

  /** `output` is the stringified result: None when there is none, or when it carries the marker that
      hides it. */
  function ToolResultContent(output: Option<string>): seq<Content> {
    if output.GetOr("") == "" then [] else [TextContent(output.value)]
  }

  function MapTodoStatus(status: string): Status {
    if status == "in_progress" then InProgress
    else if status == "done" || status == "completed" then Completed
    else Pending
  }

  /** A plan for a todo list with something in it: the same items in the same order, in progress or
      completed where the list says so. */
  function PlanFromDisplay(display: Option<Display>): (plan: seq<Update>)
    ensures |plan| == if display.Some? && display.value.TodoList? && display.value.items != []
                      then 1 else 0
    ensures plan != [] ==>
              var items := display.value.items;
              && plan[0].Plan? && |plan[0].entries| == |items|
              && forall i :: 0 <= i < |items| ==>
                   && plan[0].entries[i].content == items[i].0
                   && (plan[0].entries[i].status.InProgress? <==> items[i].1 == "in_progress")
                   && (plan[0].entries[i].status.Completed? <==> items[i].1 in {"done", "completed"})
                   && !plan[0].entries[i].status.Failed?
  {
    if display.Some? && display.value.TodoList? && display.value.items != [] then
      var items := display.value.items;
      [Plan(seq(|items|, i requires 0 <= i < |items| =>
              PlanEntry(items[i].0, MapTodoStatus(items[i].1))))]
    else []
  }

  /** The client's rule: a card is created once, and updated only after that. */
  ghost predicate Created(wire: seq<Update>, id: string) {
    exists i :: 0 <= i < |wire| && wire[i].Create? && wire[i].id == id
  }

  lemma CreatedSnoc(wire: seq<Update>, u: Update, id: string)
    ensures Created(wire + [u], id) <==> Created(wire, id) || (u.Create? && u.id == id)
  {
    var w := wire + [u];
    assert w[|wire|] == u;
    if i :| 0 <= i < |wire| && wire[i].Create? && wire[i].id == id {
      assert w[i] == wire[i];
    }
  }

  // ---- Pushes that fail ---------------------------------------------------------------------

  /** Whether the n-th push fails. */
  type Faults = nat -> bool

  function FailAt(p: nat): Faults { n => n == p }

  predicate NeedsCard(u: Update) {
    u.DeltaUpdate? || u.UpgradeUpdate? || u.ProgressUpdate? || u.ResultUpdate?
  }

  /** The card of the j-th update was pushed before it, and arrived. */
  ghost predicate HasCard(wire: seq<Update>, fails: Faults, j: nat)
    requires j < |wire| && NeedsCard(wire[j])
  {
    exists i :: 0 <= i < j && wire[i].Create? && wire[i].id == wire[j].id && !fails(i)
  }

  /** A failed push is not repeated: what the client has is the updates whose push does not fail.
      Every update of a card that it gets is for a card that it got. */
  ghost predicate ClientHasCards(wire: seq<Update>, fails: Faults) {
    forall j :: 0 <= j < |wire| && NeedsCard(wire[j]) && !fails(j) ==> HasCard(wire, fails, j)
  }

  /** The push of a card never fails. */
  ghost predicate CardsLand(wire: seq<Update>, fails: Faults) {
    forall i :: 0 <= i < |wire| && wire[i].Create? ==> !fails(i)
  }

  // ---- What the wire holds of each kind -----------------------------------------------------

  function Listed<T>(x: Option<T>): seq<T> { if x.Some? then [x.value] else [] }

  /** What `f` makes of the updates, in order, leaving out those that it makes nothing of. */
  function Kept<T>(wire: seq<Update>, f: Update -> Option<T>): seq<T>
    decreases |wire|
  {
    if wire == [] then [] else Kept(Init(wire), f) + Listed(f(Last(wire)))
  }

  lemma KeptLast<T>(wire: seq<Update>, f: Update -> Option<T>)
    requires wire != []
    ensures Kept(wire, f) == Kept(Init(wire), f) + Listed(f(Last(wire)))
  {}

  lemma {:induction false} KeptConcat<T>(a: seq<Update>, b: seq<Update>, f: Update -> Option<T>)
    ensures Kept(a + b, f) == Kept(a, f) + Kept(b, f)
    decreases |b|
  {
    if b == [] {
      assert a + b == a;
    } else {
      var last := Listed(f(Last(b)));
      assert Init(a + b) == a + Init(b) && Last(a + b) == Last(b);
      KeptConcat(a, Init(b), f);
      KeptLast(a + b, f);
      KeptLast(b, f);
      hide Kept, Listed;
      assert Kept(a, f) + Kept(Init(b), f) + last == Kept(a, f) + (Kept(Init(b), f) + last);
    }
  }

  lemma KeptOne<T>(u: Update, f: Update -> Option<T>)
    ensures Kept([u], f) == Listed(f(u))
  {
    assert Init([u]) == [];
  }

  function MessageText(u: Update): Option<string> {
    if u.MessageChunk? then Some(u.text) else None
  }

  function ThoughtText(u: Update): Option<string> {
    if u.ThoughtChunk? then Some(u.text) else None
  }

  function UserText(u: Update): Option<string> { if u.UserChunk? then Some(u.text) else None }

  datatype Outcome = Outcome(id: string, failed: bool, content: seq<Content>)

  function ResultShown(u: Update): Option<Outcome> {
    if u.ResultUpdate? && u.status.Failed? then Some(Outcome(u.id, true, u.content))
    else if u.ResultUpdate? && u.status.Completed? then Some(Outcome(u.id, false, u.content))
    else None
  }

  datatype Card = Card(id: string, title: string, kind: ToolKind, content: seq<Content>)

  /** A card that is in progress, new or upgraded. */
  function CardShown(u: Update): Option<Card> {
    if u.UpgradeUpdate? || (u.Create? && u.status.InProgress?)
    then Some(Card(u.id, u.title, u.kind, u.content)) else None
  }
}
