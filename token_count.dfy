/**
 * `GitHubModelsClient.count_tokens` (github_models_client.py): 3 tokens per
 * message, the encoded length of every value of the message, 1 more for a
 * "name" key, and 3 tokens priming the assistant's reply. The tokeniser
 * (`len(self.encoding.encode(s))`) is a parameter.
 */
module TokenCounting {
  import opened Wrappers

  /** The roles the client writes into a message's "role" key. */
  datatype Role = SystemRole | UserRole | AssistantRole

  /** The string stored under "role". */
  function RoleName(r: Role): (name: string)
  {
    match r
    case SystemRole => "system"
    case UserRole => "user"
    case AssistantRole => "assistant"
  }

  /** A chat message: its "role" and "content" keys and an optional "name" key. */
  datatype Message = Message(role: Role, content: string, name: Option<string>)

  /** The keys a message dictionary can hold. */
  datatype Key = RoleKey | ContentKey | NameKey

  /** `len(encoding.encode(s))` of the client's tokeniser. */
  type Tokeniser = string -> nat

  const TokensPerMessage: nat := 3
  const TokensPerName: nat := 1
  const ReplyPrimingTokens: nat := 3

  /** The key/value pairs of a message, in the order the client inserts them. */
  function Items(m: Message): (items: seq<(Key, string)>)
    ensures |items| >= 2 && items[0] == (RoleKey, RoleName(m.role)) && items[1] == (ContentKey, m.content)
    ensures (exists i :: 0 <= i < |items| && items[i].0 == NameKey) <==> m.name.Some?
  {
    var base := [(RoleKey, RoleName(m.role)), (ContentKey, m.content)];
    if m.name.Some? then
      var items := base + [(NameKey, m.name.value)];
      assert items[2].0 == NameKey;
      items
    else base
  }

  function ItemTokens(enc: Tokeniser, item: (Key, string)): (n: nat)
  {
    enc(item.1) + (if item.0 == NameKey then TokensPerName else 0)
  }

  function ItemsTokens(enc: Tokeniser, items: seq<(Key, string)>): (n: nat)
  {
    if items == [] then 0
    else ItemsTokens(enc, items[..|items| - 1]) + ItemTokens(enc, items[|items| - 1])
  }

  function MessageTokens(enc: Tokeniser, m: Message): (n: nat)
  {
    TokensPerMessage + ItemsTokens(enc, Items(m))
  }

  function MessagesTokens(enc: Tokeniser, ms: seq<Message>): (n: nat)
  {
    if ms == [] then 0 else MessagesTokens(enc, ms[..|ms| - 1]) + MessageTokens(enc, ms[|ms| - 1])
  }

  /** The count `count_tokens` returns for a list of messages. */
  function TokenCount(enc: Tokeniser, ms: seq<Message>): (n: nat)
  {
    MessagesTokens(enc, ms) + ReplyPrimingTokens
  }

  /** `count_tokens`: the accumulation loop over messages. */
  method CountTokens(enc: Tokeniser, messages: seq<Message>) returns (numTokens: nat)
    ensures numTokens == TokenCount(enc, messages)
  {
    numTokens := 0;
    var i := 0;
    while i < |messages|
      invariant 0 <= i <= |messages|
      invariant numTokens == MessagesTokens(enc, messages[..i])
    {
      var message := messages[i];
      assert messages[..i + 1][..i] == messages[..i];
      numTokens := numTokens + TokensPerMessage;
      var itemTokens := CountItemTokens(enc, Items(message));
      numTokens := numTokens + itemTokens;
      i := i + 1;
    }
    assert messages[..|messages|] == messages;
    numTokens := numTokens + ReplyPrimingTokens;
  }

  /** The inner loop of `count_tokens`: the tokens of the items of one message. */
  method CountItemTokens(enc: Tokeniser, items: seq<(Key, string)>) returns (n: nat)
    ensures n == ItemsTokens(enc, items)
  {
    n := 0;
    var j := 0;
    while j < |items|
      invariant 0 <= j <= |items|
      invariant n == ItemsTokens(enc, items[..j])
    {
      var (key, value) := items[j];
      assert items[..j + 1][..j] == items[..j];
      n := n + enc(value);
      if key == NameKey {
        n := n + TokensPerName;
      }
      j := j + 1;
    }
    assert items[..|items|] == items;
  }

  /** One message costs 3, the lengths of its values, and 1 for a "name" key. */
  lemma MessageTokensFormula(enc: Tokeniser, m: Message)
    ensures MessageTokens(enc, m)
            == 3 + enc(RoleName(m.role)) + enc(m.content) + (if m.name.Some? then enc(m.name.value) + 1 else 0)
  {
    var items := Items(m);
    var base := [(RoleKey, RoleName(m.role)), (ContentKey, m.content)];
    assert base[..1] == [(RoleKey, RoleName(m.role))] && base[..1][..0] == [];
    assert ItemsTokens(enc, base[..1]) == enc(RoleName(m.role));
    assert ItemsTokens(enc, base) == enc(RoleName(m.role)) + enc(m.content);
    if m.name.Some? {
      assert items == base + [(NameKey, m.name.value)];
      assert items[..|items| - 1] == base;
    } else {
      assert items == base;
    }
  }

  /** An empty list counts only the 3 reply-priming tokens. */
  lemma TokenCountEmpty(enc: Tokeniser)
    ensures TokenCount(enc, []) == 3
  {
  }

  lemma {:induction false} MessagesTokensAppend(enc: Tokeniser, a: seq<Message>, b: seq<Message>)
    ensures MessagesTokens(enc, a + b) == MessagesTokens(enc, a) + MessagesTokens(enc, b)
    decreases |b|
  {
    if b == [] {
      assert a + b == a;
    } else {
      assert (a + b)[..|a + b| - 1] == a + b[..|b| - 1];
      MessagesTokensAppend(enc, a, b[..|b| - 1]);
    }
  }

  /**
   * The count is additive: the messages of `a + b` cost what those of `a`
   * and of `b` cost, with the 3 reply-priming tokens counted once.
   */
  lemma TokenCountAppend(enc: Tokeniser, a: seq<Message>, b: seq<Message>)
    ensures TokenCount(enc, a + b) + 3 == TokenCount(enc, a) + TokenCount(enc, b)
  {
    MessagesTokensAppend(enc, a, b);
  }

  /** Every message costs at least 3 tokens. */
  lemma {:induction false} TokenCountLowerBound(enc: Tokeniser, ms: seq<Message>)
    ensures TokenCount(enc, ms) >= 3 * |ms| + 3
  {
    if ms != [] {
      TokenCountLowerBound(enc, ms[..|ms| - 1]);
    }
  }

  /** Dropping messages after a fixed head never raises the count. */
  lemma TokenCountOfSuffix(enc: Tokeniser, head: seq<Message>, msgs: seq<Message>, k: nat)
    requires k <= |msgs|
    ensures TokenCount(enc, head + msgs[k..]) <= TokenCount(enc, head + msgs)
  {
    assert msgs == msgs[..k] + msgs[k..];
    assert head + msgs == (head + msgs[..k]) + msgs[k..];
    MessagesTokensAppend(enc, head, msgs[k..]);
    MessagesTokensAppend(enc, head + msgs[..k], msgs[k..]);
    MessagesTokensAppend(enc, head, msgs[..k]);
  }

  /** A list ending in message `m` costs at least what `head + [m]` costs. */
  lemma TokenCountWithLast(enc: Tokeniser, head: seq<Message>, msgs: seq<Message>)
    requires msgs != []
    ensures TokenCount(enc, head + msgs) >= TokenCount(enc, head + [msgs[|msgs| - 1]])
  {
    TokenCountOfSuffix(enc, head, msgs, |msgs| - 1);
    assert msgs[|msgs| - 1..] == [msgs[|msgs| - 1]];
  }
}
