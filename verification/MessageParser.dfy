/**
 Tool calls in stored messages (core/message_parser.cpp) and the combined id under which a call's
 answer is stored (interface/interaction_engine.cpp) and read back by the payload builders.
 */
module MessageParser {
  import opened Ledger
  import opened ToolDispatcher

  /** The calls a message asks for, by the strategy that published it. */
  function ExtractToolCalls(m: Row): seq<Call> {
    if m.status != ToolCall || m.body.Plain? then []
    else
      match m.strategy
      case OpenAi =>
        if m.body.ToolCalls? then m.body.calls else []
      case Gemini | GeminiGca =>
        if m.body.FunctionCall? then [Call(m.callId, m.body.name, m.body.args)]
        else [Call(m.callId, m.callId, "")]
      case NoStrategy => []
  }

  function CombinedId(c: Call): string {
    if c.id != c.name && '|' !in c.id then c.id + "|" + c.name else c.id
  }

  /** The position of the first bar, or the length. */
  function FirstBar(s: string): (k: nat)
    ensures k <= |s| && (k < |s| ==> s[k] == '|') && forall i :: 0 <= i < k ==> s[i] != '|'
  {
    if s == [] || s[0] == '|' then 0 else 1 + FirstBar(s[1..])
  }

  /** `s.substr(0, s.find('|'))`; a missing bar means the whole. */
  function DecodedId(s: string): string {
    s[..FirstBar(s)]
  }

  /** `s.substr(s.find('|') + 1)`; a missing bar wraps around to 0. */
  function DecodedName(s: string): string {
    if FirstBar(s) < |s| then s[FirstBar(s) + 1..] else s
  }

  lemma FirstBarIs(s: string, k: nat)
    requires k <= |s| && (k < |s| ==> s[k] == '|') && forall i :: 0 <= i < k ==> s[i] != '|'
    ensures FirstBar(s) == k
  {
  }

  /** What stands before the first bar is the id and what stands behind it the name. */
  lemma BarSeparates(id: string, name: string)
    requires '|' !in id
    ensures DecodedId(id + "|" + name) == id && DecodedName(id + "|" + name) == name
    ensures DecodedId(id) == id && DecodedName(id) == id
  {
    var s := id + "|" + name;
    forall i | 0 <= i < |id| ensures s[i] != '|' && id[i] != '|' {
      assert s[i] == id[i] && id[i] in id;
    }
    FirstBarIs(s, |id|);
    FirstBarIs(id, |id|);
  }

  /** The stored id decodes to the call's id and name exactly when the id has no bar in it. */
  lemma CombinedIdDecodes(c: Call)
    ensures DecodedId(CombinedId(c)) == c.id && DecodedName(CombinedId(c)) == c.name <==> '|' !in c.id
  {
    var s := CombinedId(c);
    if '|' in c.id {
      var k :| 0 <= k < |c.id| && c.id[k] == '|';
      assert FirstBar(s) <= k;
      assert |DecodedId(s)| <= k;
    } else {
      BarSeparates(c.id, c.name);
    }
  }
}
