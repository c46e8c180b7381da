/** Assembling one assistant message from a provider stream (packages/kosong/src/generate.ts and
    message.ts): the pending slot, in-place merging, and routing of tool-call argument deltas. */
module StreamAssembly {
  import opened Wrappers

  // ---- Parts and messages -------------------------------------------------------------------

  /** A provider's streaming index: a number or a string, never equal to each other. */
  datatype Index = Num(n: int) | Str(s: string)

  datatype MediaKind = ImageUrl | AudioUrl | VideoUrl

  datatype StreamPart =
    | Text(text: string)
    | Think(think: string, encrypted: Option<string>)
    | Media(kind: MediaKind, url: string, mediaId: Option<string>)
    | ToolCall(id: string, name: string, args: Option<string>, extras: Option<string>,
               streamIndex: Option<Index>)
    | ToolCallPart(argsPart: Option<string>, index: Option<Index>)

  /** A tool call as the message keeps it: the routing index is stripped. */
  datatype StoredCall =
    StoredCall(id: string, name: string, args: Option<string>, extras: Option<string>)

  datatype Message = Message(content: seq<StreamPart>, toolCalls: seq<StoredCall>)

  datatype Outcome = Generated(message: Message) | EmptyResponse | ThinkOnlyResponse

  predicate IsContentPart(p: StreamPart) { p.Text? || p.Think? || p.Media? }

  function AppendArgs(args: Option<string>, more: Option<string>): Option<string> {
    match more
    case None => args
    case Some(text) => if args.None? then more else Some(args.value + text)
  }

  predicate CanMerge(target: StreamPart, source: StreamPart) {
    || (target.Text? && source.Text?)
    || (target.Think? && source.Think? && target.encrypted.None?)
    || (target.ToolCall? && source.ToolCallPart?)
  }

  function Merged(target: StreamPart, source: StreamPart): StreamPart
    requires CanMerge(target, source)
  {
    match target
    case Text(text) => Text(text + source.text)
    case Think(think, _) => Think(think + source.think, source.encrypted)
    case ToolCall(_, _, args, _, _) => target.(args := AppendArgs(args, source.argsPart))
  }

  function Stored(call: StreamPart): StoredCall
    requires call.ToolCall?
  {
    StoredCall(call.id, call.name, call.args, call.extras)
  }

  // ---- The machine --------------------------------------------------------------------------

  datatype State = State(pending: Option<StreamPart>, content: seq<StreamPart>,
                         toolCalls: seq<StoredCall>, indexMap: map<Index, nat>)
  {
    ghost predicate Valid() {
      forall k :: k in indexMap ==> indexMap[k] < |toolCalls|
    }
  }

  const INITIAL := State(None, [], [], map[])

  function Flush(st: State, part: StreamPart): State {
    if IsContentPart(part) then
      st.(content := st.content + [part])
    else if part.ToolCall? then
      st.(toolCalls := st.toolCalls + [Stored(part)],
          indexMap := if part.streamIndex.Some?
                      then st.indexMap[part.streamIndex.value := |st.toolCalls|]
                      else st.indexMap)
    else
      st
  }

  predicate PendingAt(pending: Option<StreamPart>, k: Index) {
    pending.Some? && pending.value.ToolCall? && pending.value.streamIndex == Some(k)
  }

  predicate IsRouted(st: State, part: StreamPart) {
    && part.ToolCallPart? && part.index.Some?
    && !PendingAt(st.pending, part.index.value) && part.index.value in st.indexMap
  }

  function Step(st: State, part: StreamPart): State
    requires st.Valid()
  {
    if IsRouted(st, part) then
      var i := st.indexMap[part.index.value];
      st.(toolCalls := st.toolCalls[i := st.toolCalls[i].(
            args := AppendArgs(st.toolCalls[i].args, part.argsPart))])
    else if st.pending.None? then
      st.(pending := Some(part))
    else if CanMerge(st.pending.value, part) then
      st.(pending := Some(Merged(st.pending.value, part)))
    else
      Flush(st, st.pending.value).(pending := Some(part))
  }

  function Run(stream: seq<StreamPart>): (st: State)
    ensures st.Valid()
    decreases |stream|
  {
    if stream == [] then INITIAL
    else Step(Run(stream[..|stream| - 1]), stream[|stream| - 1])
  }

  function Assembled(stream: seq<StreamPart>): Message {
    var st := Run(stream);
    var last := if st.pending.Some? then Flush(st, st.pending.value) else st;
    Message(last.content, last.toolCalls)
  }

  // ---- The machine in place -----------------------------------------------------------------

  /** The object in the pending slot, which merging updates in place. */
  class PartCell {
    var part: StreamPart

    constructor (part: StreamPart)
      ensures this.part == part
    {
      this.part := part;
    }
  }

  method MergeInPlace(target: PartCell, source: StreamPart) returns (merged: bool)
    modifies target
    ensures merged == CanMerge(old(target.part), source)
    ensures target.part == if merged then Merged(old(target.part), source) else old(target.part)
  {
    if target.part.Text? && source.Text? {
      target.part := target.part.(text := target.part.text + source.text);
      return true;
    }
    if target.part.Think? && source.Think? {
      if target.part.encrypted.Some? {
        return false;
      }
      target.part := target.part.(think := target.part.think + source.think);
      if source.encrypted.Some? {
        target.part := target.part.(encrypted := source.encrypted);
      }
      return true;
    }
    if target.part.ToolCall? && source.ToolCallPart? {
      if source.argsPart.Some? {
        target.part := target.part.(
          args := if target.part.args.None? then source.argsPart
                  else Some(target.part.args.value + source.argsPart.value));
      }
      return true;
    }
    return false;
  }

  class Assembler {
    var pending: PartCell?
    var content: seq<StreamPart>
    var toolCalls: seq<StoredCall>
    var indexMap: map<Index, nat>

    function Abs(): State
      reads this, pending
    {
      State(if pending == null then None else Some(pending.part), content, toolCalls, indexMap)
    }

    constructor ()
      ensures Abs() == INITIAL && pending == null
    {
      pending, content, toolCalls, indexMap := null, [], [], map[];
    }

    method FlushPart(part: StreamPart)
      modifies this`content, this`toolCalls, this`indexMap
      ensures Abs() == Flush(old(Abs()), part)
    {
      if IsContentPart(part) {
        content := content + [part];
        return;
      }
      if part.ToolCall? {
        var ordinal := |toolCalls|;
        toolCalls := toolCalls + [Stored(part)];
        if part.streamIndex.Some? {
          indexMap := indexMap[part.streamIndex.value := ordinal];
        }
      }
    }

    /** One turn of the streaming loop. */
    method Consume(part: StreamPart)
      requires Abs().Valid()
      modifies this, pending
      ensures Abs() == Step(old(Abs()), part)
      ensures pending == old(pending) || fresh(pending)
    {
      if part.ToolCallPart? && part.index.Some?
         && !(pending != null && PendingAt(Some(pending.part), part.index.value)) {
        if part.index.value in indexMap {
          var i := indexMap[part.index.value];
          if part.argsPart.Some? {
            var target := toolCalls[i];
            toolCalls := toolCalls[i := target.(
              args := if target.args.None? then part.argsPart
                      else Some(target.args.value + part.argsPart.value))];
          }
          return;
        }
      }
      if pending == null {
        pending := new PartCell(part);
      } else {
        var merged := MergeInPlace(pending, part);
        if !merged {
          FlushPart(pending.part);
          pending := new PartCell(part);
        }
      }
    }
  }

  predicate IsBlank(c: char) {
    c in {' ', '\t', '\n', '\U{000B}', '\U{000C}', '\r', '\U{00A0}', '\U{1680}', '\U{2028}',
          '\U{2029}', '\U{202F}', '\U{205F}', '\U{3000}', '\U{FEFF}'}
    || '\U{2000}' <= c <= '\U{200A}'
  }

  /** White space and line terminators, by code point (sections 12.2 and 12.3 of the ECMAScript language
      specification). */
  lemma BlanksAre(c: char)
    ensures IsBlank(c) <==>
              || 0x09 <= c as int <= 0x0D || 0x2000 <= c as int <= 0x200A
              || c as int in {0x20, 0xA0, 0x1680, 0x2028, 0x2029, 0x202F, 0x205F, 0x3000, 0xFEFF}
  {}

  /** `text.trim().length > 0` */
  predicate HasInk(text: string) { exists i :: 0 <= i < |text| && !IsBlank(text[i]) }

  function Verdict(m: Message): Outcome {
    if m.content == [] && m.toolCalls == [] then
      EmptyResponse
    else if (exists p :: p in m.content && p.Think?)
         && !(exists p :: p in m.content && p.Text? && HasInk(p.text)) && m.toolCalls == [] then
      ThinkOnlyResponse
    else
      Generated(m)
  }
}
