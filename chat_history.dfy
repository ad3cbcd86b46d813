/**
 * `ChatSession` (github_models_client.py): a chat history that keeps an
 * optional system message at its head and, before every request, drops the
 * oldest user/assistant exchanges until the history fits the token budget.
 * The model's reply is a parameter of `Chat`.
 */
module ChatHistory {
  import opened Wrappers
  import opened TokenCounting

  function SystemMessage(content: string): (m: Message) { Message(SystemRole, content, None) }
  function UserMessage(content: string): (m: Message) { Message(UserRole, content, None) }
  function AssistantMessage(content: string): (m: Message) { Message(AssistantRole, content, None) }

  predicate IsSystem(m: Message) { m.role == SystemRole }

  /** Python truthiness of an optional prompt: present and non-empty. */
  predicate Truthy(p: Option<string>) { p.Some? && p.value != [] }

  /** The history a session starts from, and returns to when cleared. */
  function PromptHistory(p: Option<string>): (h: seq<Message>)
    ensures h != [] <==> Truthy(p)
    ensures h != [] ==> h == [SystemMessage(p.value)]
  {
    if Truthy(p) then [SystemMessage(p.value)] else []
  }

  /** Only the first message of `h` may be a system message. */
  predicate SystemOnlyFirst(h: seq<Message>)
  {
    forall i :: 1 <= i < |h| ==> !IsSystem(h[i])
  }

  /** The system message at the head of `h`, as a sequence of at most one message. */
  function LeadingSystem(h: seq<Message>): (s: seq<Message>)
    ensures |s| <= 1 && |s| <= |h| && s == h[..|s|]
    ensures s != [] <==> h != [] && IsSystem(h[0])
  {
    if h != [] && IsSystem(h[0]) then h[..1] else []
  }

  /** Everything after the leading system message. */
  function Conversation(h: seq<Message>): (c: seq<Message>)
    ensures h == LeadingSystem(h) + c
  {
    h[|LeadingSystem(h)|..]
  }

  /**
   * One pass of the truncation loop: the oldest message goes, and so does
   * an assistant message that then comes first.
   */
  function DropOldestExchange(msgs: seq<Message>): (r: seq<Message>)
    requires msgs != []
    ensures 1 <= |msgs| - |r| <= 2 && r == msgs[|msgs| - |r|..]
    ensures |msgs| - |r| == 2 <==> |msgs| >= 2 && msgs[1].role == AssistantRole
  {
    var rest := msgs[1..];
    if rest != [] && rest[0].role == AssistantRole then rest[1..] else rest
  }

  /** `r` is what is left of `s` once some of its oldest messages are gone. */
  predicate IsSuffix(r: seq<Message>, s: seq<Message>)
  {
    |r| <= |s| && r == s[|s| - |r|..]
  }

  /** A test on a candidate history: does it fit the budget? */
  type Budget = seq<Message> -> bool

  /** The test of `_truncate_history`: the token count is at most `limit`. */
  function WithinLimit(enc: Tokeniser, limit: int): (fits: Budget)
    ensures forall ms :: fits(ms) <==> TokenCount(enc, ms) <= limit
  {
    ms => TokenCount(enc, ms) <= limit
  }

  /**
   * The conversation the truncation loop leaves: a suffix of `msgs` that,
   * behind the system part `sys`, fits the budget, or nothing at all; a
   * conversation that already fits is kept whole.
   */
  function DropUntilFits(sys: seq<Message>, msgs: seq<Message>, fits: Budget): (r: seq<Message>)
    decreases |msgs|
    ensures IsSuffix(r, msgs)
    ensures r == [] || fits(sys + r)
    ensures msgs != [] && fits(sys + msgs) ==> r == msgs
  {
    if msgs == [] || fits(sys + msgs) then msgs
    else DropUntilFits(sys, DropOldestExchange(msgs), fits)
  }

  /** The history `_truncate_history` leaves behind under budget `fits`. */
  function Truncated(h: seq<Message>, fits: Budget): (t: seq<Message>)
    ensures |t| <= |h|
  {
    LeadingSystem(h) + DropUntilFits(LeadingSystem(h), Conversation(h), fits)
  }

  /** The history after `set_system_prompt(p)`. */
  function WithSystemPrompt(h: seq<Message>, p: string): (w: seq<Message>)
    ensures w != [] && w[0] == SystemMessage(p) && |w| == |Conversation(h)| + 1
  {
    [SystemMessage(p)] + Conversation(h)
  }

  /**
   * Truncation keeps the system message at the head, keeps a suffix of the
   * conversation, and leaves a history that fits the budget unless only the
   * system message is left.
   */
  lemma TruncatedShape(h: seq<Message>, fits: Budget)
    ensures var sys, c, t := LeadingSystem(h), Conversation(h), Truncated(h, fits);
      && |sys| <= |t| <= |h| && t[..|sys|] == sys
      && t[|sys|..] == c[|c| - (|t| - |sys|)..]
      && (fits(t) || t == sys)
  {
    var sys, c := LeadingSystem(h), Conversation(h);
    var r := DropUntilFits(sys, c, fits);
    var t := sys + r;
    assert t[..|sys|] == sys && t[|sys|..] == r;
  }

  /** A history within the budget is left as it is. */
  lemma TruncatedWhenFits(h: seq<Message>, fits: Budget)
    requires fits(h)
    ensures Truncated(h, fits) == h
  {
    assert h == LeadingSystem(h) + Conversation(h);
  }

  /**
   * When only the first message may be a system message, truncation does
   * not change which message is the system one, and it preserves that
   * property.
   */
  lemma TruncatedParts(h: seq<Message>, fits: Budget)
    requires SystemOnlyFirst(h)
    ensures var sys := LeadingSystem(h);
      SplitsAs(Truncated(h, fits), sys, DropUntilFits(sys, Conversation(h), fits))
  {
    var sys, c := LeadingSystem(h), Conversation(h);
    var r := DropUntilFits(sys, c, fits);
    assert IsSuffix(r, c);
    KeepSuffix(h, r);
  }

  /** `t` has system part `sys`, conversation `c`, and no other system message. */
  predicate SplitsAs(t: seq<Message>, sys: seq<Message>, c: seq<Message>)
  {
    LeadingSystem(t) == sys && Conversation(t) == c && SystemOnlyFirst(t)
  }

  /** Keeping the system part and any suffix of the conversation keeps both apart. */
  lemma KeepSuffix(h: seq<Message>, r: seq<Message>)
    requires SystemOnlyFirst(h)
    requires IsSuffix(r, Conversation(h))
    ensures SplitsAs(LeadingSystem(h) + r, LeadingSystem(h), r)
  {
    var sys := LeadingSystem(h);
    var t := sys + r;
    KeepSuffixLeading(h, r);
    assert t[|sys|..] == r;
    forall i | 1 <= i < |t|
      ensures !IsSystem(t[i])
    {
      var k := i - |sys|;
      assert t[i] == r[k];
      SuffixAt(h, r, k);
    }
  }

  /** The system part stays at the head when a suffix of the conversation follows it. */
  lemma KeepSuffixLeading(h: seq<Message>, r: seq<Message>)
    requires SystemOnlyFirst(h)
    requires IsSuffix(r, Conversation(h))
    ensures LeadingSystem(LeadingSystem(h) + r) == LeadingSystem(h)
  {
    var sys := LeadingSystem(h);
    var t := sys + r;
    if sys != [] {
      assert t[0] == sys[0] && t[..1] == sys;
    } else if r != [] {
      assert t[0] == r[0];
      SuffixAt(h, r, 0);
    }
  }

  /** Message `k` of a suffix of the conversation, as a message of the whole history. */
  lemma SuffixAt(h: seq<Message>, r: seq<Message>, k: nat)
    requires IsSuffix(r, Conversation(h)) && k < |r|
    ensures |LeadingSystem(h)| <= |h| - |r| && r[k] == h[|h| - |r| + k]
  {
    var sys, c := LeadingSystem(h), Conversation(h);
    assert r[k] == c[|c| - |r| + k];
    assert h[|sys| + (|c| - |r| + k)] == c[|c| - |r| + k];
  }

  /** Truncating a truncated history changes nothing. */
  lemma TruncatedIdempotent(h: seq<Message>, fits: Budget)
    requires SystemOnlyFirst(h)
    ensures Truncated(Truncated(h, fits), fits) == Truncated(h, fits)
  {
    TruncatedParts(h, fits);
  }

  /** Over budget, the truncation loop makes one pass and goes on. */
  lemma DropUntilFitsStep(sys: seq<Message>, msgs: seq<Message>, fits: Budget)
    requires msgs != [] && !fits(sys + msgs)
    ensures DropUntilFits(sys, msgs, fits) == DropUntilFits(sys, DropOldestExchange(msgs), fits)
  {
  }

  /** Messages alternate user, assistant, user, … from the first one. */
  predicate Exchanges(c: seq<Message>)
  {
    forall i :: 0 <= i < |c| ==> c[i].role == (if i % 2 == 0 then UserRole else AssistantRole)
  }

  /**
   * On a conversation of whole user/assistant exchanges, truncation removes
   * whole exchanges: what is left still starts with a user message, and an
   * even number of messages went.
   */
  lemma {:induction false} DropKeepsExchanges(sys: seq<Message>, c: seq<Message>, fits: Budget)
    requires Exchanges(c)
    ensures Exchanges(DropUntilFits(sys, c, fits))
    ensures var r := DropUntilFits(sys, c, fits); r == [] || (|c| - |r|) % 2 == 0
    decreases |c|
  {
    var r := DropUntilFits(sys, c, fits);
    if c != [] && !fits(sys + c) {
      var d := DropOldestExchange(c);
      assert r == DropUntilFits(sys, d, fits);
      DropOldestOfExchanges(c);
      DropKeepsExchanges(sys, d, fits);
      if r != [] {
        EvenPlusTwo(|d| - |r|, |c| - |r|);
      }
    } else {
      assert r == c;
    }
  }

  lemma EvenPlusTwo(a: int, b: int)
    requires a % 2 == 0 && b == a + 2
    ensures b % 2 == 0
  {
  }

  /** On alternating messages, one pass drops a whole exchange. */
  lemma DropOldestOfExchanges(c: seq<Message>)
    requires c != [] && Exchanges(c)
    ensures var d := DropOldestExchange(c);
      Exchanges(d) && (d == [] || |c| - |d| == 2)
  {
    var d := DropOldestExchange(c);
    if |c| >= 2 {
      assert c[1].role == AssistantRole;
      forall i | 0 <= i < |d|
        ensures d[i].role == (if i % 2 == 0 then UserRole else AssistantRole)
      {
        assert d[i] == c[i + 2];
      }
    }
  }

  /**
   * If the newest message is not an assistant message and fits behind the
   * system part on its own, truncation keeps it.
   */
  lemma {:induction false} DropKeepsLast(sys: seq<Message>, msgs: seq<Message>, fits: Budget)
    requires msgs != [] && msgs[|msgs| - 1].role != AssistantRole
    requires fits(sys + [msgs[|msgs| - 1]])
    ensures var r := DropUntilFits(sys, msgs, fits);
      r != [] && r[|r| - 1] == msgs[|msgs| - 1]
    decreases |msgs|
  {
    var last := msgs[|msgs| - 1];
    var r := DropUntilFits(sys, msgs, fits);
    if |msgs| == 1 {
      Singleton(msgs);
      assert r == msgs;
    } else if fits(sys + msgs) {
      assert r == msgs;
    } else {
      var d := DropOldestExchange(msgs);
      if |msgs| == 2 {
        assert msgs[1] == last;
      }
      assert |d| >= 1 && d[|d| - 1] == last;
      DropUntilFitsStep(sys, msgs, fits);
      DropKeepsLast(sys, d, fits);
    }
  }

  lemma Singleton(msgs: seq<Message>)
    requires |msgs| == 1
    ensures msgs == [msgs[|msgs| - 1]]
  {
  }

  /**
   * Behind system part `sys`, a conversation that fits the budget only does
   * so if its newest message alone does.
   */
  ghost predicate NewestBounds(fits: Budget, sys: seq<Message>)
  {
    forall r: seq<Message> | r != [] && fits(sys + r) :: fits(sys + [r[|r| - 1]])
  }

  /** The token budget has that property: every message costs tokens. */
  lemma WithinLimitNewestBounds(enc: Tokeniser, limit: int, sys: seq<Message>)
    ensures NewestBounds(WithinLimit(enc, limit), sys)
  {
    forall r: seq<Message> | r != [] && WithinLimit(enc, limit)(sys + r)
      ensures WithinLimit(enc, limit)(sys + [r[|r| - 1]])
    {
      TokenCountWithLast(enc, sys, r);
    }
  }

  /** If the newest message alone does not fit behind the system part, everything goes. */
  lemma {:induction false} DropEverything(sys: seq<Message>, msgs: seq<Message>, last: Message, fits: Budget)
    requires NewestBounds(fits, sys)
    requires msgs != [] ==> msgs[|msgs| - 1] == last
    requires !fits(sys + [last])
    ensures DropUntilFits(sys, msgs, fits) == []
    decreases |msgs|
  {
    if msgs != [] {
      assert !fits(sys + msgs);
      DropEverything(sys, DropOldestExchange(msgs), last, fits);
    }
  }

  lemma AppendKeepsSystemOnlyFirst(h: seq<Message>, m: Message)
    requires SystemOnlyFirst(h) && !IsSystem(m)
    ensures SystemOnlyFirst(h + [m])
  {
    assert forall i :: 1 <= i < |h| ==> (h + [m])[i] == h[i];
  }

  /** Appending a non-system message extends the conversation. */
  lemma AppendToConversation(h: seq<Message>, m: Message)
    requires !IsSystem(m)
    ensures LeadingSystem(h + [m]) == LeadingSystem(h)
    ensures Conversation(h + [m]) == Conversation(h) + [m]
  {
    var sys := LeadingSystem(h);
    assert (h + [m])[..|sys|] == sys;
    assert h + [m] == sys + (Conversation(h) + [m]);
  }

  /** The history `chat` sends: `h` plus a non-system message, truncated. */
  lemma TruncatedAppend(h: seq<Message>, m: Message, fits: Budget)
    requires !IsSystem(m)
    ensures Truncated(h + [m], fits)
            == LeadingSystem(h) + DropUntilFits(LeadingSystem(h), Conversation(h) + [m], fits)
  {
    AppendToConversation(h, m);
  }

  /** `t` is `sys` followed by at least one message, the last of which is `m`. */
  predicate KeepsNewest(sys: seq<Message>, t: seq<Message>, m: Message)
  {
    |t| > |sys| && t[..|sys|] == sys && t[|t| - 1] == m
  }

  /**
   * `chat` keeps the new user message, behind the unchanged system part,
   * whenever that message fits the budget behind the system part.
   */
  lemma ChatKeepsUserMessage(h: seq<Message>, u: string, fits: Budget)
    requires fits(LeadingSystem(h) + [UserMessage(u)])
    ensures KeepsNewest(LeadingSystem(h), Truncated(h + [UserMessage(u)], fits), UserMessage(u))
  {
    var m := UserMessage(u);
    assert !IsSystem(m) && m.role != AssistantRole;
    var sys, c := LeadingSystem(h), Conversation(h) + [m];
    assert c != [] && c[|c| - 1] == m;
    KeepsAppendedParts(sys, c, m, fits);
    TruncatedAppend(h, m, fits);
  }

  /**
   * A reply appended behind a history whose newest message is `m` (such as
   * the one `chat` sends, by `ChatKeepsUserMessage`) ends the history as the
   * exchange `m`, `reply`.
   */
  lemma ReplyAfterNewest(sys: seq<Message>, sent: seq<Message>, m: Message, reply: Message)
    requires KeepsNewest(sys, sent, m)
    ensures var t := sent + [reply]; |t| >= 2 && t[|t| - 2] == m && t[|t| - 1] == reply
  {
    var t := sent + [reply];
    assert t[|t| - 2] == sent[|sent| - 1];
  }

  lemma KeepsAppendedParts(sys: seq<Message>, c: seq<Message>, m: Message, fits: Budget)
    requires c != [] && c[|c| - 1] == m && m.role != AssistantRole
    requires fits(sys + [m])
    ensures KeepsNewest(sys, sys + DropUntilFits(sys, c, fits), m)
  {
    DropKeepsLast(sys, c, fits);
    AppendEnds(sys, DropUntilFits(sys, c, fits));
  }

  lemma AppendEnds(a: seq<Message>, b: seq<Message>)
    requires b != []
    ensures |a + b| > |a| && (a + b)[..|a|] == a && (a + b)[|a + b| - 1] == b[|b| - 1]
  {
  }

  /**
   * A user message too large for the budget on its own takes the whole
   * conversation with it, itself included: only the system part is left.
   */
  lemma ChatDropsOversizedUserMessage(h: seq<Message>, u: string, fits: Budget)
    requires NewestBounds(fits, LeadingSystem(h))
    requires !fits(LeadingSystem(h) + [UserMessage(u)])
    ensures Truncated(h + [UserMessage(u)], fits) == LeadingSystem(h)
  {
    var m := UserMessage(u);
    var sys, c := LeadingSystem(h), Conversation(h) + [m];
    TruncatedAppend(h, m, fits);
    DropEverything(sys, c, m, fits);
    var t := Truncated(h + [m], fits);
    assert t == sys + [];
  }

  /**
   * `set_system_prompt` replaces the system message, or inserts one, and
   * leaves the conversation alone; the last prompt set wins.
   */
  lemma SystemPromptReplaced(h: seq<Message>, p: string, q: string)
    ensures LeadingSystem(WithSystemPrompt(h, p)) == [SystemMessage(p)]
    ensures Conversation(WithSystemPrompt(h, p)) == Conversation(h)
    ensures SystemOnlyFirst(h) ==> SystemOnlyFirst(WithSystemPrompt(h, p))
    ensures WithSystemPrompt(WithSystemPrompt(h, p), q) == WithSystemPrompt(h, q)
  {
    SystemPromptParts(h, p);
    if SystemOnlyFirst(h) {
      SystemPromptOnlyFirst(h, p);
    }
  }

  lemma SystemPromptParts(h: seq<Message>, p: string)
    ensures LeadingSystem(WithSystemPrompt(h, p)) == [SystemMessage(p)]
    ensures Conversation(WithSystemPrompt(h, p)) == Conversation(h)
  {
    var w := WithSystemPrompt(h, p);
    assert w[..1] == [SystemMessage(p)];
    assert w[1..] == Conversation(h);
  }

  lemma SystemPromptOnlyFirst(h: seq<Message>, p: string)
    requires SystemOnlyFirst(h)
    ensures SystemOnlyFirst(WithSystemPrompt(h, p))
  {
    var w, sys := WithSystemPrompt(h, p), LeadingSystem(h);
    forall i | 1 <= i < |w|
      ensures !IsSystem(w[i])
    {
      assert w[i] == h[|sys| + i - 1];
    }
  }

  /**
   * A chat session. `tokenLength` is the client's tokeniser and
   * `maxHistoryTokens` the history budget; `history` and `systemPrompt` are
   * the attributes the session updates.
   */
  class ChatSession {
    const tokenLength: Tokeniser
    const maxHistoryTokens: int
    var history: seq<Message>
    var systemPrompt: Option<string>

    ghost predicate Valid()
      reads this
    {
      SystemOnlyFirst(history)
    }

    /** `__init__`: the history starts with a system message only for a truthy prompt. */
    constructor (tokenLength: Tokeniser, maxHistoryTokens: int := 8000, systemPrompt: Option<string> := None)
      ensures Valid()
      ensures this.tokenLength == tokenLength && this.maxHistoryTokens == maxHistoryTokens
      ensures this.systemPrompt == systemPrompt
      ensures history == PromptHistory(systemPrompt)
    {
      this.tokenLength := tokenLength;
      this.maxHistoryTokens := maxHistoryTokens;
      this.systemPrompt := systemPrompt;
      history := [];
      if Truthy(systemPrompt) {
        history := history + [SystemMessage(systemPrompt.value)];
      }
    }

    /** `set_system_prompt`: drop a leading system message, then insert the new one. */
    method SetSystemPrompt(p: string)
      requires Valid()
      modifies this
      ensures Valid()
      ensures history == WithSystemPrompt(old(history), p)
      ensures systemPrompt == Some(p)
    {
      SystemPromptReplaced(history, p, p);
      if history != [] && history[0].role == SystemRole {
        history := history[1..];
      }
      history := [SystemMessage(p)] + history;
      systemPrompt := Some(p);
    }

    /**
     * `_truncate_history`: set the system message aside, drop the oldest
     * exchanges while the history is over budget, and put it back.
     */
    method TruncateHistory()
      requires Valid()
      modifies this`history
      ensures Valid()
      ensures history == Truncated(old(history), WithinLimit(tokenLength, maxHistoryTokens))
    {
      var systemMessage, messages := SplitSystem(history);
      messages := DropWhileOver(systemMessage, messages);
      TruncatedParts(history, WithinLimit(tokenLength, maxHistoryTokens));
      history := systemMessage + messages;
    }

    /** The first step of `_truncate_history`: pop a leading system message. */
    static method SplitSystem(h: seq<Message>) returns (systemMessage: seq<Message>, messages: seq<Message>)
      ensures systemMessage == LeadingSystem(h) && messages == Conversation(h)
    {
      messages := h;
      systemMessage := [];
      if messages != [] && messages[0].role == SystemRole {
        systemMessage := [messages[0]];
        messages := messages[1..];
      }
    }

    /**
     * The loop of `_truncate_history`: while messages are left and the
     * history is over budget, pop the oldest message, and then an assistant
     * message that comes first.
     */
    method DropWhileOver(systemMessage: seq<Message>, messages: seq<Message>) returns (kept: seq<Message>)
      ensures kept == DropUntilFits(systemMessage, messages, WithinLimit(tokenLength, maxHistoryTokens))
    {
      kept := messages;
      var over := OverBudget(systemMessage, kept);
      while over
        invariant DropUntilFits(systemMessage, kept, WithinLimit(tokenLength, maxHistoryTokens))
                  == DropUntilFits(systemMessage, messages, WithinLimit(tokenLength, maxHistoryTokens))
        invariant over <==> kept != [] && TokenCount(tokenLength, systemMessage + kept) > maxHistoryTokens
        decreases |kept|
      {
        ghost var previous := kept;
        kept := kept[1..];
        if kept != [] && kept[0].role == AssistantRole {
          kept := kept[1..];
        }
        assert kept == DropOldestExchange(previous);
        assert !WithinLimit(tokenLength, maxHistoryTokens)(systemMessage + previous);
        DropUntilFitsStep(systemMessage, previous, WithinLimit(tokenLength, maxHistoryTokens));
        over := OverBudget(systemMessage, kept);
      }
    }

    /** The loop condition of `_truncate_history`: messages left and over budget. */
    method OverBudget(systemMessage: seq<Message>, messages: seq<Message>) returns (over: bool)
      ensures over <==> messages != [] && TokenCount(tokenLength, systemMessage + messages) > maxHistoryTokens
    {
      over := false;
      if messages != [] {
        var n := CountTokens(tokenLength, systemMessage + messages);
        over := n > maxHistoryTokens;
      }
    }

    /**
     * `chat`: append the user message, truncate, send the history, and
     * append the reply. `respond` stands for the completion request; `None`
     * is a request that raised, which leaves the truncated history with the
     * user message and no reply.
     */
    method Chat(userMessage: string, respond: seq<Message> -> Option<string>) returns (reply: Option<string>)
      requires Valid()
      modifies this`history
      ensures Valid()
      ensures var sent := Truncated(old(history) + [UserMessage(userMessage)], WithinLimit(tokenLength, maxHistoryTokens));
        && reply == respond(sent)
        && history == sent + (if reply.Some? then [AssistantMessage(reply.value)] else [])
    {
      AppendKeepsSystemOnlyFirst(history, UserMessage(userMessage));
      history := history + [UserMessage(userMessage)];
      TruncateHistory();
      reply := respond(history);
      if reply.Some? {
        AppendKeepsSystemOnlyFirst(history, AssistantMessage(reply.value));
        history := history + [AssistantMessage(reply.value)];
      }
    }

    /** `get_history`: a copy of the history. */
    method GetHistory() returns (h: seq<Message>)
      ensures h == history
    {
      h := history;
    }

    /** `clear_history`: back to the system prompt alone, or to nothing. */
    method ClearHistory(keepSystemPrompt: bool := true)
      modifies this`history
      ensures Valid()
      ensures history == if keepSystemPrompt then PromptHistory(systemPrompt) else []
    {
      if keepSystemPrompt && Truthy(systemPrompt) {
        history := [SystemMessage(systemPrompt.value)];
      } else {
        history := [];
      }
    }

    /** `get_token_count`: the token count of the whole history. */
    method GetTokenCount() returns (n: nat)
      ensures n == TokenCount(tokenLength, history)
    {
      n := CountTokens(tokenLength, history);
    }
  }
}
