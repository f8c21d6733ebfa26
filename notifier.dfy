/**
 * The immediate sender of notifier.go: a pool of webhook tokens chosen
 * round-robin by a counter that is reset after 100 rounds, an optional
 * identity tag in front of every message, and one HTTP exchange per message.
 */
module Notifier {
  import opened Wrappers
  import opened Arith

  /** The counter is reset once it reaches ResetRounds times the pool size. */
  const ResetRounds: nat := 100

  /** Go's http.StatusOK. */
  const StatusOK: int := 200

  // ---------------------------------------------------------------------
  // Round-robin selection (getWebhookUrl)
  // ---------------------------------------------------------------------

  /**
   * The counter after one selection from a pool of n tokens. An empty pool
   * leaves it alone; otherwise the old value idx is incremented, and reset to
   * 0 when idx >= 100 * n.
   */
  function NextCounter(c: nat, n: nat): (c': nat)
    ensures n == 0 ==> c' == c
    ensures c <= ResetRounds * n ==> c' <= ResetRounds * n
  {
    if n == 0 then c
    else if c >= ResetRounds * n then 0
    else c + 1
  }

  /** While the counter stays within its bound, one selection adds 1 modulo 100 * n + 1. */
  lemma NextCounterModular(c: nat, n: nat)
    requires n > 0 && c <= ResetRounds * n
    ensures NextCounter(c, n) == (c + 1) % (ResetRounds * n + 1)
  {
    if c >= ResetRounds * n {
      ModOfMultiplePlus(1, ResetRounds * n + 1, 0);
    } else {
      ModOfMultiplePlus(0, ResetRounds * n + 1, c + 1);
    }
  }

  /**
   * The counter after k selections starting from c: an empty pool never
   * moves it, and selections never push it past 100 * n.
   */
  function Steps(c: nat, n: nat, k: nat): (r: nat)
    ensures n == 0 ==> r == c
    ensures c <= ResetRounds * n ==> r <= ResetRounds * n
  {
    if k == 0 then c else NextCounter(Steps(c, n, k - 1), n)
  }

  /** The token indices chosen by k selections starting from counter c. */
  function Picks(c: nat, n: nat, k: nat): (r: seq<nat>)
    requires n > 0
    ensures |r| == k
    ensures forall i | 0 <= i < k :: r[i] < n
    decreases k
  {
    if k == 0 then [] else [c % n] + Picks(NextCounter(c, n), n, k - 1)
  }

  /** Selection j of a run of k starting at counter c uses the counter value after j steps. */
  lemma {:induction false} PicksAt(c: nat, n: nat, k: nat, j: nat)
    requires n > 0 && j < k
    ensures Picks(c, n, k)[j] == Steps(c, n, j) % n
    decreases k
  {
    if j > 0 {
      PicksAt(NextCounter(c, n), n, k - 1, j - 1);
      StepsShift(c, n, j - 1);
    }
  }

  /** Taking one step first and then k is the same as taking k + 1. */
  lemma {:induction false} StepsShift(c: nat, n: nat, k: nat)
    ensures Steps(NextCounter(c, n), n, k) == Steps(c, n, k + 1)
  {
    if k > 0 {
      StepsShift(c, n, k - 1);
    }
  }

  /** From a fresh selector the counter after k selections is k mod (100 * n + 1). */
  lemma {:induction false} FreshSteps(n: nat, k: nat)
    requires n > 0
    ensures Steps(0, n, k) == k % (ResetRounds * n + 1)
  {
    if k > 0 {
      var m := ResetRounds * n + 1;
      var c := Steps(0, n, k - 1);
      FreshSteps(n, k - 1);
      NextCounterModular(c, n);
      ModSucc(k - 1, m);
      assert Steps(0, n, k) == NextCounter(c, n) == (c + 1) % m;
    } else {
      ModOfMultiplePlus(0, ResetRounds * n + 1, 0);
    }
  }

  /**
   * From a fresh selector, selection j picks token (j mod (100n + 1)) mod n,
   * so up to and including the reset point it picks token j mod n.
   */
  lemma FreshSelection(n: nat, k: nat, j: nat)
    requires n > 0 && j < k
    ensures Picks(0, n, k)[j] == (j % (ResetRounds * n + 1)) % n
    ensures j <= ResetRounds * n ==> Picks(0, n, k)[j] == j % n
  {
    PicksAt(0, n, k, j);
    FreshSteps(n, j);
    if j <= ResetRounds * n {
      ModOfMultiplePlus(0, ResetRounds * n + 1, j);
    }
  }

  /**
   * At the reset point (idx = 100 * n) the selection picks token 0, and the
   * selection right after it picks token 0 again.
   */
  lemma ResetRepeatsFirstToken(n: nat)
    requires n > 0
    ensures Steps(0, n, ResetRounds * n + 1) == 0
    ensures Picks(0, n, ResetRounds * n + 2)[ResetRounds * n] == 0
    ensures Picks(0, n, ResetRounds * n + 2)[ResetRounds * n + 1] == 0
  {
    var m := ResetRounds * n + 1;
    FreshSelection(n, m + 1, m - 1);
    FreshSelection(n, m + 1, m);
    FreshSteps(n, m);
    ModOfMultiplePlus(1, m, 0);
    ModOfMultiplePlus(ResetRounds, n, 0);
    ModOfMultiplePlus(0, n, 0);
  }

  /** Below the reset point every selection increments the counter. */
  lemma {:induction false} StepsBelowReset(c: nat, n: nat, j: nat)
    requires n > 0 && c + j <= ResetRounds * n
    ensures Steps(c, n, j) == c + j
  {
    if j > 0 {
      StepsBelowReset(c, n, j - 1);
    }
  }

  /** The indices r, r + 1, ..., n - 1, 0, 1, ..., r - 1. */
  function Rotation(r: nat, n: nat): (s: seq<nat>)
    requires r < n
    ensures |s| == n
    ensures forall t | 0 <= t < n :: t in s
    ensures forall i, j | 0 <= i < j < n :: s[i] != s[j]
  {
    var s := seq(n, i requires 0 <= i < n => if i < n - r then r + i else i - (n - r));
    assert forall t | 0 <= t < n :: t in s by {
      forall t | 0 <= t < n
        ensures t in s
      {
        if t >= r {
          assert s[t - r] == t;
        } else {
          assert s[t + (n - r)] == t;
        }
      }
    }
    s
  }

  /**
   * n consecutive selections from counter c that stay at or below the reset
   * point visit every token exactly once, in registration order starting
   * from token c mod n.
   */
  lemma RoundRobinWindow(c: nat, n: nat)
    requires n > 0 && c + n <= ResetRounds * n + 1
    ensures Picks(c, n, n) == Rotation(c % n, n)
  {
    forall j | 0 <= j < n
      ensures Picks(c, n, n)[j] == Rotation(c % n, n)[j]
    {
      WindowPick(c, n, j);
    }
  }

  lemma WindowPick(c: nat, n: nat, j: nat)
    requires n > 0 && j < n && c + n <= ResetRounds * n + 1
    ensures Picks(c, n, n)[j] == Rotation(c % n, n)[j]
  {
    PicksAt(c, n, n, j);
    StepsBelowReset(c, n, j);
    RotationMod(c, n, j);
  }

  /** Rotation(c mod n, n) lists (c + j) mod n for j = 0 .. n - 1. */
  lemma RotationMod(c: nat, n: nat, j: nat)
    requires n > 0 && j < n
    ensures (c + j) % n == Rotation(c % n, n)[j]
  {
    var q, r := c / n, c % n;
    assert c == q * n + r;
    if j < n - r {
      ModOfMultiplePlus(q, n, r + j);
    } else {
      assert c + j == (q + 1) * n + (j - (n - r)) by {
        assert (q + 1) * n == q * n + n;
      }
      ModOfMultiplePlus(q + 1, n, j - (n - r));
    }
  }

  /** A pool of three tokens: nine selections from a fresh selector go 0, 1, 2, 0, 1, 2, 0, 1, 2. */
  lemma ThreeTokensNineSelections()
    ensures Picks(0, 3, 9) == [0, 1, 2, 0, 1, 2, 0, 1, 2]
  {
    var p := Picks(0, 3, 9);
    FreshSelection(3, 9, 0);
    FreshSelection(3, 9, 1);
    FreshSelection(3, 9, 2);
    FreshSelection(3, 9, 3);
    FreshSelection(3, 9, 4);
    FreshSelection(3, 9, 5);
    FreshSelection(3, 9, 6);
    FreshSelection(3, 9, 7);
    FreshSelection(3, 9, 8);
    assert p[0] == 0 && p[1] == 1 && p[2] == 2;
    assert p[3] == 0 && p[4] == 1 && p[5] == 2;
    assert p[6] == 0 && p[7] == 1 && p[8] == 2;
  }

  // ---------------------------------------------------------------------
  // Identity tag
  // ---------------------------------------------------------------------

  /**
   * The text actually sent: unchanged for an empty identity, otherwise
   * "[identity] message" (fmt.Sprintf("[%s] %s", identity, message)).
   */
  function WithIdentity(identity: string, message: string): (r: string)
    ensures identity == "" ==> r == message
    ensures identity != "" ==> |r| == |identity| + 3 + |message|
    ensures identity != "" ==> r[..|identity| + 3] == "[" + identity + "] " && r[|identity| + 3..] == message
  {
    if identity == "" then message else "[" + identity + "] " + message
  }

  /** The first index at or after i where s holds c. */
  function IndexOf(s: string, c: char, i: nat): (r: Option<nat>)
    requires i <= |s|
    ensures r.Some? ==> i <= r.value < |s| && s[r.value] == c
    ensures r.Some? ==> forall k | i <= k < r.value :: s[k] != c
    ensures r.None? ==> forall k | i <= k < |s| :: s[k] != c
    decreases |s| - i
  {
    if i == |s| then None
    else if s[i] == c then Some(i)
    else IndexOf(s, c, i + 1)
  }

  /** Reads the identity tag back off a sent text: "[id] rest" gives (id, rest). */
  function ParseIdentity(text: string): Option<(string, string)>
  {
    if |text| == 0 || text[0] != '[' then None
    else
      match IndexOf(text, ']', 1)
      case None => None
      case Some(j) =>
        if j + 1 < |text| && text[j + 1] == ' ' then Some((text[1..j], text[j + 2..]))
        else None
  }

  /**
   * The tag is recoverable: a non-empty identity without a closing bracket
   * is read back, together with the original message, from the sent text.
   */
  lemma IdentityRoundTrip(identity: string, message: string)
    requires identity != "" && ']' !in identity
    ensures ParseIdentity(WithIdentity(identity, message)) == Some((identity, message))
  {
    var t := WithIdentity(identity, message);
    var j := |identity| + 1;
    assert t == "[" + identity + "] " + message;
    assert t[j] == ']' && t[j + 1] == ' ';
    forall k | 1 <= k < j
      ensures t[k] != ']'
    {
      assert t[k] == identity[k - 1];
    }
    assert IndexOf(t, ']', 1) == Some(j);
    assert t[1..j] == identity;
    assert t[j + 2..] == message;
  }

  // ---------------------------------------------------------------------
  // The sender
  // ---------------------------------------------------------------------

  /** The *http.Client in use; its behaviour is part of the exchange outcome. */
  datatype Client = DefaultClient | CustomClient(id: nat)

  /**
   * What the HTTP layer made of one request: building it failed
   * (http.NewRequestWithContext returned an error), client.Do failed, or a
   * response with some status code came back.
   */
  datatype Outcome = RequestInvalid | TransportError | Responded(status: int)

  datatype SendError = NoWebhookUrl | CreateRequestError | SendRequestError | BadStatus(status: int)

  /** The request handed to client.Do. */
  datatype Request = Request(httpMethod: string, url: string, headers: map<string, string>,
                             body: string, client: Client)

  /** The error SendMessage returns for an exchange outcome. */
  function OutcomeError(o: Outcome): (e: Option<SendError>)
    ensures e == None <==> o == Responded(StatusOK)
  {
    match o
    case RequestInvalid => Some(CreateRequestError)
    case TransportError => Some(SendRequestError)
    case Responded(s) => if s == StatusOK then None else Some(BadStatus(s))
  }

  /**
   * notify: the configured request shape, the token pool and the round-robin
   * counter. `sprintf` stands for fmt.Sprintf applied to a user template and
   * one argument.
   */
  class Notify {
    var client: Client
    var httpMethod: string
    var headers: map<string, string>
    const webhookUrlFormat: string
    const textBodyFormat: string
    const tokens: seq<string>
    var counter: nat
    var identity: string

    ghost predicate Valid()
      reads this
    {
      counter <= ResetRounds * |tokens|
    }

    /** NewNotifier: POST with a JSON content type, the default client, counter 0, no identity. */
    constructor (webhookUrlFormat: string, textBodyFormat: string, tokens: seq<string>)
      ensures Valid()
      ensures this.webhookUrlFormat == webhookUrlFormat && this.textBodyFormat == textBodyFormat
      ensures this.tokens == tokens && counter == 0 && identity == ""
      ensures client == DefaultClient && httpMethod == "POST"
      ensures headers == map["Content-Type" := "application/json"]
    {
      client := DefaultClient;
      httpMethod := "POST";
      headers := map["Content-Type" := "application/json"];
      this.webhookUrlFormat := webhookUrlFormat;
      this.textBodyFormat := textBodyFormat;
      this.tokens := tokens;
      counter := 0;
      identity := "";
    }

    method SetClient(client: Client)
      modifies this`client
      ensures this.client == client
    {
      this.client := client;
    }

    method SetIdentity(identity: string)
      modifies this`identity
      ensures this.identity == identity
    {
      this.identity := identity;
    }

    method SetRequestConfig(httpMethod: string, headers: map<string, string>)
      modifies this`httpMethod, this`headers
      ensures this.httpMethod == httpMethod && this.headers == headers
    {
      this.httpMethod := httpMethod;
      this.headers := headers;
    }

    /**
     * The webhook URL selected when the counter holds c: "" for an empty
     * pool, otherwise the URL template applied to the token the selector picks.
     */
    function UrlAt(c: nat, sprintf: (string, string) -> string): (url: string)
      ensures |tokens| == 0 ==> url == ""
      ensures |tokens| > 0 ==> url == sprintf(webhookUrlFormat, tokens[Picks(c, |tokens|, 1)[0]])
    {
      if |tokens| == 0 then "" else sprintf(webhookUrlFormat, tokens[c % |tokens|])
    }

    /**
     * getWebhookUrl: fetch-and-increment the counter, reset it when the
     * fetched value reached 100 * N, and format the token the fetched value
     * selects. An empty pool gives "" and leaves the counter alone.
     */
    method GetWebhookUrl(sprintf: (string, string) -> string) returns (url: string)
      requires Valid()
      modifies this`counter
      ensures Valid()
      ensures counter == NextCounter(old(counter), |tokens|)
      ensures |tokens| == 0 ==> url == ""
      ensures |tokens| > 0 ==> url == sprintf(webhookUrlFormat, tokens[old(counter) % |tokens|])
    {
      var totalToken := |tokens|;
      if totalToken == 0 {
        return "";
      }
      var idx := counter;
      counter := counter + 1;
      if idx >= totalToken * ResetRounds {
        counter := 0;
      }
      url := sprintf(webhookUrlFormat, tokens[idx % totalToken]);
    }

    /**
     * SendMessage: select a URL (failing with "no webhook url" when it is
     * empty, before any request is built), tag the message with the identity,
     * format the body, and map the exchange outcome to an error; only a 200
     * response succeeds. `request` is what was handed to client.Do, if
     * anything.
     */
    method SendMessage(message: string, sprintf: (string, string) -> string, outcome: Outcome)
      returns (err: Option<SendError>, request: Option<Request>)
      requires Valid()
      modifies this`counter
      ensures Valid()
      ensures counter == NextCounter(old(counter), |tokens|)
      ensures UrlAt(old(counter), sprintf) == "" ==> err == Some(NoWebhookUrl) && request == None
      ensures UrlAt(old(counter), sprintf) != "" ==>
        err == OutcomeError(outcome) &&
        request == (if outcome == RequestInvalid then None
                    else Some(Request(httpMethod, UrlAt(old(counter), sprintf), headers,
                                      sprintf(textBodyFormat, WithIdentity(identity, message)), client)))
    {
      var webhookUrl := GetWebhookUrl(sprintf);
      if webhookUrl == "" {
        return Some(NoWebhookUrl), None;
      }
      var text := message;
      if identity != "" {
        text := "[" + identity + "] " + message;
      }
      if outcome == RequestInvalid {
        return Some(CreateRequestError), None;
      }
      var req := Request(httpMethod, webhookUrl, headers, sprintf(textBodyFormat, text), client);
      request := Some(req);
      match outcome
      case TransportError =>
        err := Some(SendRequestError);
      case Responded(status) =>
        err := if status != StatusOK then Some(BadStatus(status)) else None;
    }
  }
}
