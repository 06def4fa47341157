/** The temporary-token cache of config/token.go: every user of a kubeconfig
    gets a random temporary token whose suffix is the expiry, the original
    token is kept in a cache keyed by the temporary one, and redeeming a
    temporary token fails once it has expired. Also the search of a
    kubeconfig's exec arguments for an `--expiry` timestamp.

    The random source is a stream of indices into the alphabet; the cache
    directory is a map from temporary token to entry; file writes, timestamp
    parsing and the `%v` rendering of non-text tokens are parameters. */
module TokenCache {
  import opened Wrappers
  import opened Strs
  import opened Clock
  import opened KubeDoc

  // ---------------------------------------------------------------------------
  // Random strings
  // ---------------------------------------------------------------------------

  const Letters: string := "abcdefghijklmnopqrstuvwxyz0123456789"

  type Index36 = i: int | 0 <= i < 36

  /** The `rand.Intn(36)` results, one after another. */
  type Draws = nat -> Index36

  /** The characters of the alphabet: lower-case ASCII letters and digits. */
  predicate InAlphabet(c: char) {
    'a' <= c <= 'z' || '0' <= c <= '9'
  }

  /** The character of an alphabet index. */
  function Letter(i: Index36): (c: char)
    ensures InAlphabet(c)
    ensures i < 26 ==> c as int == 'a' as int + i
    ensures 26 <= i ==> c as int == '0' as int + i - 26
  {
    if i < 26 then ('a' as int + i) as char else ('0' as int + i - 26) as char
  }

  /** Letter is indexing into the `letters` constant. */
  lemma LetterIsIndex(i: Index36)
    ensures Letter(i) == Letters[i]
  {
  }

  /** Different indices give different characters. */
  lemma LetterInjective(i: Index36, j: Index36)
    requires Letter(i) == Letter(j)
    ensures i == j
  {
  }

  /** The `i`-th draw from position `start` on. */
  function DrawAt(draws: Draws, start: nat, i: nat): Index36 {
    draws(start + i)
  }

  /** `randString(n)`, consuming the draws from position `start` on. */
  function RandString(draws: Draws, start: nat, n: nat): (s: string)
    ensures |s| == n
    decreases n
  {
    if n == 0 then "" else [Letter(draws(start))] + RandString(draws, start + 1, n - 1)
  }

  /** Character `i` of a random string is the letter of the `i`-th draw. */
  lemma {:induction false} RandStringAt(draws: Draws, start: nat, n: nat)
    ensures forall i :: 0 <= i < n ==> RandString(draws, start, n)[i] == Letter(DrawAt(draws, start, i))
    decreases n
  {
    if n > 0 {
      RandStringAt(draws, start + 1, n - 1);
      assert forall i :: 1 <= i < n ==> DrawAt(draws, start, i) == DrawAt(draws, start + 1, i - 1);
    }
  }

  /** Every character of a random string is in the alphabet. */
  lemma RandStringAlphabet(draws: Draws, start: nat, n: nat)
    ensures forall i :: 0 <= i < n ==> RandString(draws, start, n)[i] in Letters
  {
    RandStringAt(draws, start, n);
    forall i | 0 <= i < n ensures RandString(draws, start, n)[i] in Letters {
      LetterIsIndex(DrawAt(draws, start, i));
    }
  }

  /** Two random strings are equal exactly when the draws they consumed
      are. */
  lemma RandStringInjective(d1: Draws, s1: nat, d2: Draws, s2: nat, n: nat)
    ensures RandString(d1, s1, n) == RandString(d2, s2, n)
            <==> forall i :: 0 <= i < n ==> DrawAt(d1, s1, i) == DrawAt(d2, s2, i)
  {
    var a, b := RandString(d1, s1, n), RandString(d2, s2, n);
    RandStringAt(d1, s1, n);
    RandStringAt(d2, s2, n);
    if a == b {
      forall i | 0 <= i < n ensures DrawAt(d1, s1, i) == DrawAt(d2, s2, i) {
        assert a[i] == b[i];
        LetterInjective(DrawAt(d1, s1, i), DrawAt(d2, s2, i));
      }
    }
  }

  // ---------------------------------------------------------------------------
  // Temporary tokens
  // ---------------------------------------------------------------------------

  const TokenPrefix: string := "temp-"
  const RandomLength: nat := 8

  /** The `j`-th temporary token of a rewrite: "temp-", eight random
      characters, "-", the expiry in Unix seconds. */
  function TempToken(draws: Draws, j: nat, expiresAt: int): string {
    TokenPrefix + RandString(draws, RandomLength * j, RandomLength) + "-" + Itoa(UnixSeconds(expiresAt))
  }

  /** The shape of a temporary token for expiry `expiresAt`. */
  predicate IsTempToken(t: string, expiresAt: int) {
    && |t| > 14
    && t[..5] == TokenPrefix
    && (forall i :: 5 <= i < 13 ==> InAlphabet(t[i]))
    && t[13] == '-'
    && t[14..] == Itoa(UnixSeconds(expiresAt))
  }

  /** Every temporary token has that shape, and its suffix reads back as the
      expiry's Unix second. */
  lemma TempTokenShape(draws: Draws, j: nat, expiresAt: int)
    ensures IsTempToken(TempToken(draws, j, expiresAt), expiresAt)
    ensures Atoi(TempToken(draws, j, expiresAt)[14..]) == Some(UnixSeconds(expiresAt))
  {
    var r := RandString(draws, RandomLength * j, RandomLength);
    var d := Itoa(UnixSeconds(expiresAt));
    var t := TempToken(draws, j, expiresAt);
    assert t == TokenPrefix + r + "-" + d;
    assert |d| > 0 by {
      ItoaRoundTrip(UnixSeconds(expiresAt));
    }
    assert t[..5] == TokenPrefix;
    assert forall i :: 5 <= i < 13 ==> t[i] == r[i - 5];
    RandStringAt(draws, RandomLength * j, RandomLength);
    assert t[14..] == d;
    ItoaRoundTrip(UnixSeconds(expiresAt));
  }

  // ---------------------------------------------------------------------------
  // Rewriting a kubeconfig
  // ---------------------------------------------------------------------------

  /** What the cache file of a temporary token holds. */
  datatype CacheEntry = CacheEntry(original: string, expiresAt: int)

  /** Everything a rewrite consults besides the document. */
  datatype Env = Env(
    expiresAt: int,                 // tokenManager.ExpiresAt
    draws: Draws,                   // the random source
    writeErr: nat -> Option<string>, // the outcome of the j-th cache file write
    show: Node -> string)           // `%v` of a token that is not text

  /** `fmt.Sprintf("%v", auth["token"])`: "<nil>" when absent. */
  function OriginalText(t: Option<Node>, show: Node -> string): string {
    match t
    case None => "<nil>"
    case Some(Scalar(s)) => s
    case Some(n) => show(n)
  }

  /** The `user` mapping of a users entry, when it has one. */
  function AuthOf(u: Node): Option<Entries> {
    if !u.Map? then None
    else match Lookup(u.entries, "user")
      case Some(Map(auth)) => Some(auth)
      case _ => None
  }

  /** The new `user` mapping: the temporary token in, both client
      certificate fields out. */
  function RewriteAuth(auth: Entries, temp: string): (a: Entries)
    ensures Lookup(a, "token") == Some(Scalar(temp))
    ensures Lookup(a, "client-certificate-data") == None && Lookup(a, "client-key-data") == None
    ensures forall k :: k != "token" && k != "client-certificate-data" && k != "client-key-data" ==>
              Lookup(a, k) == Lookup(auth, k)
  {
    var a1 := Set(auth, "token", Scalar(temp));
    var a2 := Remove(a1, "client-certificate-data");
    var a3 := Remove(a2, "client-key-data");
    RemoveOthers(a2, "client-key-data", "token");
    RemoveOthers(a1, "client-certificate-data", "token");
    RemoveOthers(a2, "client-key-data", "client-certificate-data");
    forall k | k != "token" && k != "client-certificate-data" && k != "client-key-data"
      ensures Lookup(a3, k) == Lookup(auth, k)
    {
      SetOthers(auth, "token", Scalar(temp), k);
      RemoveOthers(a1, "client-certificate-data", k);
      RemoveOthers(a2, "client-key-data", k);
    }
    a3
  }

  /** A partial rewrite: the value so far or the error that stopped it, how
      many temporary tokens were made, and the cache files written. */
  datatype Step<T> = Step(value: Result<T, string>, next: nat, writes: seq<(string, CacheEntry)>)

  /** `u'` is `u` with its `user` mapping given a temporary token for
      `expiresAt`: that token set, the certificate fields gone, all else
      kept. */
  ghost predicate UserRewritten(u: Node, u': Node, expiresAt: int) {
    && u.Map? && u'.Map?
    && (forall k :: k != "user" ==> Lookup(u'.entries, k) == Lookup(u.entries, k))
    && AuthOf(u).Some? && AuthOf(u').Some?
    && var a, a' := AuthOf(u).value, AuthOf(u').value;
       && Lookup(a', "token").Some? && Lookup(a', "token").value.Scalar?
       && IsTempToken(Lookup(a', "token").value.text, expiresAt)
       && Lookup(a', "client-certificate-data") == None && Lookup(a', "client-key-data") == None
       && (forall k :: k != "token" && k != "client-certificate-data" && k != "client-key-data" ==>
             Lookup(a', k) == Lookup(a, k))
  }

  /** What the loop leaves of a users entry: rewritten when it has a `user`
      mapping, untouched otherwise. */
  ghost predicate UserOutcome(u: Node, u': Node, expiresAt: int) {
    if AuthOf(u).None? then u' == u else UserRewritten(u, u', expiresAt)
  }

  /** The outcome of the `m`-th cache file write. */
  function WriteOutcome(env: Env, m: nat): Option<string> {
    env.writeErr(m)
  }

  /** The temporary tokens of a rewrite, by number. */
  ghost function Tokens(env: Env): nat -> string {
    (m: nat) => TempToken(env.draws, m, env.expiresAt)
  }

  /** The cache files written hold `tokens(j)`, `tokens(j + 1)`, ... in
      order, each with the expiry. */
  ghost predicate WritesFrom(writes: seq<(string, CacheEntry)>, j: nat, tokens: nat -> string, expiresAt: int) {
    forall k :: 0 <= k < |writes| ==> writes[k].0 == tokens(j + k) && writes[k].1.expiresAt == expiresAt
  }

  lemma WritesFromAppend(w1: seq<(string, CacheEntry)>, w2: seq<(string, CacheEntry)>, j: nat,
                         tokens: nat -> string, expiresAt: int)
    requires WritesFrom(w1, j, tokens, expiresAt) && WritesFrom(w2, j + |w1|, tokens, expiresAt)
    ensures WritesFrom(w1 + w2, j, tokens, expiresAt)
  {
    forall k | 0 <= k < |w1 + w2|
      ensures (w1 + w2)[k].0 == tokens(j + k) && (w1 + w2)[k].1.expiresAt == expiresAt
    {
      if k >= |w1| {
        assert (w1 + w2)[k] == w2[k - |w1|];
      }
    }
  }

  /** No cache write from the `j`-th up to (not including) the `n`-th
      failed. */
  ghost predicate WritesSucceed(env: Env, j: nat, n: nat) {
    forall m :: j <= m < n ==> WriteOutcome(env, m).None?
  }

  /** The rewrite of one users entry, as the `j`-th temporary token when it
      has a `user` mapping. */
  function RewriteUser(u: Node, j: nat, env: Env): (st: Step<Node>)
    ensures AuthOf(u).None? ==> st == Step(Ok(u), j, [])
    ensures AuthOf(u).Some? ==> st.next == j + 1 && (st.value.Err? <==> WriteOutcome(env, j).Some?)
    ensures st.value.Err? ==> st.value.error == WriteOutcome(env, j).value && st.writes == []
    ensures st.value.Ok? ==> |st.writes| == st.next - j
  {
    match AuthOf(u)
    case None => Step(Ok(u), j, [])
    case Some(auth) =>
      var temp := TempToken(env.draws, j, env.expiresAt);
      var entry := CacheEntry(OriginalText(Lookup(auth, "token"), env.show), env.expiresAt);
      match WriteOutcome(env, j)
      case Some(e) => Step(Err(e), j + 1, [])
      case None => Step(Ok(Map(Set(u.entries, "user", Map(RewriteAuth(auth, temp))))), j + 1, [(temp, entry)])
  }

  /** A rewritten users entry carries the `j`-th temporary token, and its
      cache file holds that token with the expiry. */
  lemma RewriteUserOk(u: Node, j: nat, env: Env)
    requires RewriteUser(u, j, env).value.Ok?
    ensures UserOutcome(u, RewriteUser(u, j, env).value.value, env.expiresAt)
  {
    if AuthOf(u).Some? {
      var auth := AuthOf(u).value;
      var temp := TempToken(env.draws, j, env.expiresAt);
      assert RewriteUser(u, j, env).value.value == Map(Set(u.entries, "user", Map(RewriteAuth(auth, temp))));
      TempTokenShape(env.draws, j, env.expiresAt);
      RewriteUserEffect(u, auth, temp, env.expiresAt);
    }
  }

  /** A rewritten users entry's cache file holds its token with the
      expiry. */
  lemma RewriteUserWrites(u: Node, j: nat, env: Env)
    requires RewriteUser(u, j, env).value.Ok?
    ensures WritesFrom(RewriteUser(u, j, env).writes, j, Tokens(env), env.expiresAt)
  {
    if AuthOf(u).Some? {
      var auth := AuthOf(u).value;
      var temp := TempToken(env.draws, j, env.expiresAt);
      var entry := CacheEntry(OriginalText(Lookup(auth, "token"), env.show), env.expiresAt);
      assert RewriteUser(u, j, env).writes == [(temp, entry)];
      assert Tokens(env)(j) == temp;
      SingleWrite(temp, entry, j, Tokens(env), env.expiresAt);
    }
  }

  /** A single file written holding token `j`. */
  lemma SingleWrite(temp: string, entry: CacheEntry, j: nat, tokens: nat -> string, expiresAt: int)
    requires tokens(j) == temp && entry.expiresAt == expiresAt
    ensures WritesFrom([(temp, entry)], j, tokens, expiresAt)
  {
  }

  lemma RewriteUserEffect(u: Node, auth: Entries, temp: string, expiresAt: int)
    requires AuthOf(u) == Some(auth)
    requires IsTempToken(temp, expiresAt)
    ensures UserRewritten(u, Map(Set(u.entries, "user", Map(RewriteAuth(auth, temp)))), expiresAt)
  {
    var a' := RewriteAuth(auth, temp);
    var es' := Set(u.entries, "user", Map(a'));
    assert Lookup(es', "user") == Some(Map(a'));
    forall k | k != "user" ensures Lookup(es', k) == Lookup(u.entries, k) {
      SetOthers(u.entries, "user", Map(a'), k);
    }
  }

  /** The entries that have a `user` mapping, in order: the ones a rewrite
      gives a temporary token. */
  function AuthUsers(us: seq<Node>): seq<Node>
    decreases |us|
  {
    if |us| == 0 then [] else (if AuthOf(us[0]).Some? then [us[0]] else []) + AuthUsers(us[1..])
  }

  lemma AuthUsersCount(us: seq<Node>)
    requires |us| > 0
    ensures |AuthUsers(us)| == (if AuthOf(us[0]).Some? then 1 else 0) + |AuthUsers(us[1..])|
  {
  }

  lemma AuthUsersCons(u: Node, rest: seq<Node>)
    ensures AuthUsers([u] + rest) == (if AuthOf(u).Some? then [u] else []) + AuthUsers(rest)
  {
    assert ([u] + rest)[1..] == rest;
  }

  lemma AuthUsersInCons(item: (string, Node), rest: Entries)
    ensures AuthUsersIn([item] + rest)
            == (if item.0 == "users" && item.1.List? then AuthUsers(item.1.items) else []) + AuthUsersIn(rest)
  {
    assert ([item] + rest)[1..] == rest;
  }

  /** The entries with a `user` mapping under every `users` sequence of a
      document, in document order. */
  function AuthUsersIn(items: Entries): seq<Node>
    decreases |items|
  {
    if |items| == 0 then []
    else
      (if items[0].0 == "users" && items[0].1.List? then AuthUsers(items[0].1.items) else [])
      + AuthUsersIn(items[1..])
  }

  /** The token an entry's `user` mapping holds, when it has one. */
  function TokenOf(u: Node): Option<Node> {
    match AuthOf(u)
    case None => None
    case Some(auth) => Lookup(auth, "token")
  }

  /** The cache file `write` records the token `before` held, under the
      temporary token that `after` now holds. */
  predicate Recorded(before: Node, after: Node, write: (string, CacheEntry), env: Env) {
    && TokenOf(after) == Some(Scalar(write.0))
    && write.1 == CacheEntry(OriginalText(TokenOf(before), env.show), env.expiresAt)
  }

  /** The `k`-th cache file records the `k`-th entry before and after. */
  predicate Records(befores: seq<Node>, afters: seq<Node>, writes: seq<(string, CacheEntry)>, env: Env) {
    && |befores| == |afters| == |writes|
    && forall k :: 0 <= k < |writes| ==> Recorded(befores[k], afters[k], writes[k], env)
  }

  lemma RecordsAppend(b1: seq<Node>, a1: seq<Node>, w1: seq<(string, CacheEntry)>,
                      b2: seq<Node>, a2: seq<Node>, w2: seq<(string, CacheEntry)>, env: Env)
    requires Records(b1, a1, w1, env) && Records(b2, a2, w2, env)
    ensures Records(b1 + b2, a1 + a2, w1 + w2, env)
  {
    forall k | 0 <= k < |w1 + w2| ensures Recorded((b1 + b2)[k], (a1 + a2)[k], (w1 + w2)[k], env) {
      if k >= |w1| {
        assert (b1 + b2)[k] == b2[k - |w1|] && (a1 + a2)[k] == a2[k - |w1|] && (w1 + w2)[k] == w2[k - |w1|];
      }
    }
  }

  /** What the rewrite of one users entry as the `m`-th temporary token
      promises: an entry without a `user` mapping is passed over; any other
      uses up token `m` and its cache write, stops on that write's error, and
      otherwise is rewritten with that one cache file written. */
  ghost predicate UserStep(u: Node, m: nat, st: Step<Node>, env: Env, done: (Node, Node) -> bool,
                          tokens: nat -> string) {
    && (AuthOf(u).None? ==> st == Step(Ok(u), m, []))
    && (AuthOf(u).Some? ==> st.next == m + 1 && (st.value.Err? <==> WriteOutcome(env, m).Some?))
    && (st.value.Err? ==> st.value.error == WriteOutcome(env, m).value && st.writes == [])
    && (st.value.Ok? ==>
          && done(u, st.value.value)
          && |st.writes| == st.next - m && WritesFrom(st.writes, m, tokens, env.expiresAt))
  }

  /** `user` keeps the promise of `UserStep` on every entry and token, with
      `done` relating each entry it rewrites to the result. */
  ghost predicate Proper(user: (Node, nat) -> Step<Node>, env: Env, done: (Node, Node) -> bool,
                         tokens: nat -> string) {
    forall u, m :: UserStep(u, m, user(u, m), env, done, tokens)
  }

  /** The relation between a users entry and what the rewrite leaves of it. */
  ghost function Outcome(expiresAt: int): (Node, Node) -> bool {
    (u, u') => UserOutcome(u, u', expiresAt)
  }

  /** The rewrite of one users entry keeps that promise. */
  lemma RewriteUserProper(env: Env)
    ensures Proper(UserRewrite(env), env, Outcome(env.expiresAt), Tokens(env))
  {
    forall u, m ensures UserStep(u, m, RewriteUser(u, m, env), env, Outcome(env.expiresAt), Tokens(env)) {
      if RewriteUser(u, m, env).value.Ok? {
        RewriteUserOk(u, m, env);
        RewriteUserWrites(u, m, env);
      }
    }
  }

  /** The users loop, given the rewrite of one entry as the `m`-th token:
      each entry in turn, stopping at the first failed cache write. */
  function RewriteUsers(us: seq<Node>, j: nat, user: (Node, nat) -> Step<Node>): Step<seq<Node>>
    decreases |us|
  {
    if |us| == 0 then Step(Ok([]), j, [])
    else
      var head := user(us[0], j);
      match head.value
      case Err(e) => Step(Err(e), head.next, head.writes)
      case Ok(u') =>
        var tail := RewriteUsers(us[1..], head.next, user);
        match tail.value
        case Err(e) => Step(Err(e), tail.next, head.writes + tail.writes)
        case Ok(us') => Step(Ok([u'] + us'), tail.next, head.writes + tail.writes)
  }

  /** A completed users loop rewrote every entry with a `user` mapping and
      left the others alone, using up one temporary token per rewritten
      entry. */
  lemma {:induction false} RewriteUsersOk(us: seq<Node>, j: nat, user: (Node, nat) -> Step<Node>, env: Env,
                                           done: (Node, Node) -> bool, tokens: nat -> string)
    requires Proper(user, env, done, tokens)
    requires RewriteUsers(us, j, user).value.Ok?
    ensures var st := RewriteUsers(us, j, user);
            && |st.value.value| == |us|
            && (forall i :: 0 <= i < |us| ==> done(us[i], st.value.value[i]))
            && st.next == j + |AuthUsers(us)|
            && |st.writes| == st.next - j
    decreases |us|
  {
    if |us| > 0 {
      var head := user(us[0], j);
      assert UserStep(us[0], j, head, env, done, tokens);
      RewriteUsersOk(us[1..], head.next, user, env, done, tokens);
      AuthUsersCount(us);
      assert forall i :: 1 <= i < |us| ==> us[i] == us[1..][i - 1];
    }
  }

  /** A completed users loop wrote the cache files of its tokens in order
      and met no failed write. */
  lemma {:induction false} RewriteUsersWrites(us: seq<Node>, j: nat, user: (Node, nat) -> Step<Node>, env: Env,
                                               done: (Node, Node) -> bool, tokens: nat -> string)
    requires Proper(user, env, done, tokens)
    requires RewriteUsers(us, j, user).value.Ok?
    ensures var st := RewriteUsers(us, j, user);
            && j <= st.next && |st.writes| == st.next - j
            && WritesFrom(st.writes, j, tokens, env.expiresAt) && WritesSucceed(env, j, st.next)
    decreases |us|
  {
    if |us| > 0 {
      var head := user(us[0], j);
      assert UserStep(us[0], j, head, env, done, tokens);
      var tail := RewriteUsers(us[1..], head.next, user);
      RewriteUsersWrites(us[1..], head.next, user, env, done, tokens);
      WritesFromAppend(head.writes, tail.writes, j, tokens, env.expiresAt);
    }
  }

  /** A users loop that stopped did so at a failed cache write, the first
      one: every write before it succeeded. */
  lemma {:induction false} RewriteUsersErr(us: seq<Node>, j: nat, user: (Node, nat) -> Step<Node>, env: Env,
                                           done: (Node, Node) -> bool, tokens: nat -> string)
    requires Proper(user, env, done, tokens)
    requires RewriteUsers(us, j, user).value.Err?
    ensures var st := RewriteUsers(us, j, user);
            && j < st.next <= j + |AuthUsers(us)|
            && WriteOutcome(env, st.next - 1) == Some(st.value.error)
            && WritesSucceed(env, j, st.next - 1)
    decreases |us|
  {
    var head := user(us[0], j);
    assert UserStep(us[0], j, head, env, done, tokens);
    AuthUsersCount(us);
    if head.value.Ok? {
      RewriteUsersErr(us[1..], head.next, user, env, done, tokens);
    }
  }

  /** What the loop leaves of a top-level entry. */
  ghost predicate ItemOutcome(item: (string, Node), item': (string, Node), done: (Node, Node) -> bool) {
    && item'.0 == item.0
    && if item.0 == "users" && item.1.List? then
         && item'.1.List? && |item'.1.items| == |item.1.items|
         && forall i :: 0 <= i < |item.1.items| ==> done(item.1.items[i], item'.1.items[i])
       else item' == item
  }

  /** One top-level entry: the users of a `users` sequence rewritten, any
      other entry kept. */
  function RewriteItem(item: (string, Node), j: nat, user: (Node, nat) -> Step<Node>): Step<(string, Node)> {
    if item.0 == "users" && item.1.List? then
      var us := RewriteUsers(item.1.items, j, user);
      Step(if us.value.Ok? then Ok(("users", List(us.value.value))) else Err(us.value.error), us.next, us.writes)
    else Step(Ok(item), j, [])
  }

  /** The top-level loop: the users of every `users` entry that is a
      sequence are rewritten; every other entry is kept. */
  function RewriteItems(items: Entries, j: nat, user: (Node, nat) -> Step<Node>): Step<Entries>
    decreases |items|
  {
    if |items| == 0 then Step(Ok([]), j, [])
    else
      var head := RewriteItem(items[0], j, user);
      match head.value
      case Err(e) => Step(Err(e), head.next, head.writes)
      case Ok(item) =>
        var tail := RewriteItems(items[1..], head.next, user);
        match tail.value
        case Err(e) => Step(Err(e), tail.next, head.writes + tail.writes)
        case Ok(rest) => Step(Ok([item] + rest), tail.next, head.writes + tail.writes)
  }

  /** A completed top-level loop rewrote the users of every `users`
      sequence and kept every other entry. */
  lemma {:induction false} RewriteItemsOk(items: Entries, j: nat, user: (Node, nat) -> Step<Node>, env: Env,
                                           done: (Node, Node) -> bool, tokens: nat -> string)
    requires Proper(user, env, done, tokens)
    requires RewriteItems(items, j, user).value.Ok?
    ensures var st := RewriteItems(items, j, user);
            && |st.value.value| == |items|
            && (forall i :: 0 <= i < |items| ==> ItemOutcome(items[i], st.value.value[i], done))
    decreases |items|
  {
    if |items| > 0 {
      var head := RewriteItem(items[0], j, user);
      if items[0].0 == "users" && items[0].1.List? {
        RewriteUsersOk(items[0].1.items, j, user, env, done, tokens);
      }
      RewriteItemsOk(items[1..], head.next, user, env, done, tokens);
      assert forall i :: 1 <= i < |items| ==> items[i] == items[1..][i - 1];
    }
  }

  /** A completed top-level loop wrote the cache files of its tokens in
      order and met no failed write. */
  lemma {:induction false} RewriteItemsWrites(items: Entries, j: nat, user: (Node, nat) -> Step<Node>, env: Env,
                                               done: (Node, Node) -> bool, tokens: nat -> string)
    requires Proper(user, env, done, tokens)
    requires RewriteItems(items, j, user).value.Ok?
    ensures var st := RewriteItems(items, j, user);
            && j <= st.next && |st.writes| == st.next - j
            && WritesFrom(st.writes, j, tokens, env.expiresAt) && WritesSucceed(env, j, st.next)
    decreases |items|
  {
    if |items| > 0 {
      var head := RewriteItem(items[0], j, user);
      RewriteItemWrites(items[0], j, user, env, done, tokens);
      var tail := RewriteItems(items[1..], head.next, user);
      RewriteItemsWrites(items[1..], head.next, user, env, done, tokens);
      WritesFromAppend(head.writes, tail.writes, j, tokens, env.expiresAt);
      WritesSucceedJoin(env, j, head.next, tail.next);
    }
  }

  /** One entry of the top-level loop, rewritten without a failed write. */
  lemma RewriteItemWrites(item: (string, Node), j: nat, user: (Node, nat) -> Step<Node>, env: Env,
                          done: (Node, Node) -> bool, tokens: nat -> string)
    requires Proper(user, env, done, tokens)
    requires RewriteItem(item, j, user).value.Ok?
    ensures var st := RewriteItem(item, j, user);
            && j <= st.next && |st.writes| == st.next - j
            && WritesFrom(st.writes, j, tokens, env.expiresAt) && WritesSucceed(env, j, st.next)
  {
    if item.0 == "users" && item.1.List? {
      RewriteUsersWrites(item.1.items, j, user, env, done, tokens);
    }
  }

  lemma WritesSucceedJoin(env: Env, a: nat, b: nat, c: nat)
    requires WritesSucceed(env, a, b) && WritesSucceed(env, b, c) && a <= b <= c
    ensures WritesSucceed(env, a, c)
  {
  }

  /** A top-level loop that stopped did so at its first failed cache
      write. */
  lemma {:induction false} RewriteItemsErr(items: Entries, j: nat, user: (Node, nat) -> Step<Node>, env: Env,
                                           done: (Node, Node) -> bool, tokens: nat -> string)
    requires Proper(user, env, done, tokens)
    requires RewriteItems(items, j, user).value.Err?
    ensures var st := RewriteItems(items, j, user);
            && j < st.next
            && WriteOutcome(env, st.next - 1) == Some(st.value.error)
            && WritesSucceed(env, j, st.next - 1)
    decreases |items|
  {
    var head := RewriteItem(items[0], j, user);
    if items[0].0 == "users" && items[0].1.List? {
      var us := RewriteUsers(items[0].1.items, j, user);
      if us.value.Ok? {
        RewriteUsersWrites(items[0].1.items, j, user, env, done, tokens);
      } else {
        RewriteUsersErr(items[0].1.items, j, user, env, done, tokens);
      }
    }
    if head.value.Ok? {
      RewriteItemsErr(items[1..], head.next, user, env, done, tokens);
    }
  }

  /** The rewrite of one users entry, as the loops take it. */
  function UserRewrite(env: Env): (Node, nat) -> Step<Node> {
    (u: Node, m: nat) => RewriteUser(u, m, env)
  }

  /** The cache file of a rewritten users entry records its old token under
      its new one. */
  lemma RewriteUserRecords(u: Node, j: nat, env: Env)
    requires AuthOf(u).Some? && RewriteUser(u, j, env).value.Ok?
    ensures var st := RewriteUser(u, j, env);
            && |st.writes| == 1 && AuthOf(st.value.value).Some?
            && Recorded(u, st.value.value, st.writes[0], env)
  {
    var auth := AuthOf(u).value;
    var temp := TempToken(env.draws, j, env.expiresAt);
    var a' := RewriteAuth(auth, temp);
    assert Lookup(Set(u.entries, "user", Map(a')), "user") == Some(Map(a'));
  }

  /** A completed users loop wrote, for its `k`-th rewritten entry, the
      `k`-th cache file, which records that entry's old token under its new
      one. */
  lemma {:induction false} RewriteUsersRecords(us: seq<Node>, j: nat, env: Env)
    requires RewriteUsers(us, j, UserRewrite(env)).value.Ok?
    ensures var st := RewriteUsers(us, j, UserRewrite(env));
            Records(AuthUsers(us), AuthUsers(st.value.value), st.writes, env)
    decreases |us|
  {
    if |us| > 0 {
      var user := UserRewrite(env);
      var head := RewriteUser(us[0], j, env);
      var tail := RewriteUsers(us[1..], head.next, user);
      assert RewriteUsers(us, j, user) == Step(Ok([head.value.value] + tail.value.value), tail.next, head.writes + tail.writes);
      RewriteUsersRecords(us[1..], head.next, env);
      AuthUsersCons(head.value.value, tail.value.value);
      HeadRecords(us[0], j, env);
      RecordsAppend(if AuthOf(us[0]).Some? then [us[0]] else [],
                    if AuthOf(us[0]).Some? then [head.value.value] else [], head.writes,
                    AuthUsers(us[1..]), AuthUsers(tail.value.value), tail.writes, env);
    }
  }

  /** One users entry's own part of the records. */
  lemma HeadRecords(u: Node, j: nat, env: Env)
    requires RewriteUser(u, j, env).value.Ok?
    ensures var st := RewriteUser(u, j, env);
            && (AuthOf(st.value.value).Some? <==> AuthOf(u).Some?)
            && Records(if AuthOf(u).Some? then [u] else [],
                       if AuthOf(u).Some? then [st.value.value] else [], st.writes, env)
  {
    if AuthOf(u).Some? {
      RewriteUserRecords(u, j, env);
    }
  }

  /** A completed top-level loop wrote, for the `k`-th rewritten users entry
      of the document, the `k`-th cache file, which records that entry's old
      token under its new one. */
  lemma {:induction false} RewriteItemsRecords(items: Entries, j: nat, env: Env)
    requires RewriteItems(items, j, UserRewrite(env)).value.Ok?
    ensures var st := RewriteItems(items, j, UserRewrite(env));
            Records(AuthUsersIn(items), AuthUsersIn(st.value.value), st.writes, env)
    decreases |items|
  {
    if |items| > 0 {
      var user := UserRewrite(env);
      var head := RewriteItem(items[0], j, user);
      var tail := RewriteItems(items[1..], head.next, user);
      assert RewriteItems(items, j, user) == Step(Ok([head.value.value] + tail.value.value), tail.next, head.writes + tail.writes);
      RewriteItemsRecords(items[1..], head.next, env);
      AuthUsersInCons(head.value.value, tail.value.value);
      ItemRecords(items[0], j, env);
      var mine := if items[0].0 == "users" && items[0].1.List? then AuthUsers(items[0].1.items) else [];
      var mine' := if head.value.value.0 == "users" && head.value.value.1.List? then AuthUsers(head.value.value.1.items) else [];
      RecordsAppend(mine, mine', head.writes, AuthUsersIn(items[1..]), AuthUsersIn(tail.value.value), tail.writes, env);
    }
  }

  /** One top-level entry's own part of the records. */
  lemma ItemRecords(item: (string, Node), j: nat, env: Env)
    requires RewriteItem(item, j, UserRewrite(env)).value.Ok?
    ensures var st := RewriteItem(item, j, UserRewrite(env));
            var it := st.value.value;
            Records(if item.0 == "users" && item.1.List? then AuthUsers(item.1.items) else [],
                    if it.0 == "users" && it.1.List? then AuthUsers(it.1.items) else [], st.writes, env)
  {
    if item.0 == "users" && item.1.List? {
      RewriteUsersRecords(item.1.items, j, env);
    }
  }

  /** `ModifyKubeconfig(data, tokenManager)`, given the decoded document: a
      document that is not a mapping is refused, otherwise the top-level
      loop runs with the one-entry rewrite above. */
  function ModifyKubeconfig(parsed: Result<Node, string>, env: Env): (st: Step<Node>)
    ensures parsed.Err? ==> st == Step(Err(parsed.error), 0, [])
    ensures parsed.Ok? && !parsed.value.Map? ==> st.value.Err? && st.next == 0 && st.writes == []
    ensures st.value.Ok? ==> parsed.Ok? && parsed.value.Map? && st.value.value.Map?
  {
    RewriteDocument(parsed, UserRewrite(env))
  }

  /** The body of `ModifyKubeconfig` with `user` as the rewrite of one users
      entry. */
  function RewriteDocument(parsed: Result<Node, string>, user: (Node, nat) -> Step<Node>): Step<Node> {
    match parsed
    case Err(e) => Step(Err(e), 0, [])
    case Ok(doc) =>
      if !doc.Map? then Step(Err("cannot unmarshal into a mapping"), 0, [])
      else
        var st := RewriteItems(doc.entries, 0, user);
        Step(if st.value.Ok? then Ok(Map(st.value.value)) else Err(st.value.error), st.next, st.writes)
  }

  /** On success every users entry of every `users` sequence with a `user`
      mapping carries a new temporary token, not only the first, every other
      entry is as it was, one cache file per token is written in order and
      no write failed. A failed cache write stops the rewrite at the first
      failure; the files written before it stay. */
  lemma ModifyKubeconfigEffect(parsed: Result<Node, string>, env: Env)
    requires parsed.Ok? && parsed.value.Map?
    ensures var st := ModifyKubeconfig(parsed, env);
            var items := parsed.value.entries;
            && (st.value.Ok? ==>
                  && |st.value.value.entries| == |items|
                  && (forall i :: 0 <= i < |items| ==> ItemOutcome(items[i], st.value.value.entries[i], Outcome(env.expiresAt)))
                  && |st.writes| == st.next && WritesFrom(st.writes, 0, Tokens(env), env.expiresAt)
                  && WritesSucceed(env, 0, st.next))
            && (st.value.Err? ==>
                  && 0 < st.next
                  && WriteOutcome(env, st.next - 1) == Some(st.value.error)
                  && WritesSucceed(env, 0, st.next - 1))
  {
    var user := UserRewrite(env);
    RewriteUserProper(env);
    var st := RewriteItems(parsed.value.entries, 0, user);
    if st.value.Ok? {
      RewriteItemsOk(parsed.value.entries, 0, user, env, Outcome(env.expiresAt), Tokens(env));
      RewriteItemsWrites(parsed.value.entries, 0, user, env, Outcome(env.expiresAt), Tokens(env));
    } else {
      RewriteItemsErr(parsed.value.entries, 0, user, env, Outcome(env.expiresAt), Tokens(env));
    }
  }

  /** On success the `k`-th users entry with a `user` mapping, in document
      order, now holds the `k`-th temporary token, and the `k`-th cache file
      records the token it held before under that temporary token. */
  lemma ModifyKubeconfigCaches(parsed: Result<Node, string>, env: Env)
    requires parsed.Ok? && parsed.value.Map?
    requires ModifyKubeconfig(parsed, env).value.Ok?
    ensures var st := ModifyKubeconfig(parsed, env);
            && Records(AuthUsersIn(parsed.value.entries), AuthUsersIn(st.value.value.entries), st.writes, env)
            && WritesFrom(st.writes, 0, Tokens(env), env.expiresAt)
  {
    RewriteItemsRecords(parsed.value.entries, 0, env);
    ModifyKubeconfigEffect(parsed, env);
  }

  // ---------------------------------------------------------------------------
  // Redeeming a temporary token
  // ---------------------------------------------------------------------------

  type Cache = map<string, CacheEntry>

  /** The cache after writing the given files in order; a later file for the
      same token replaces an earlier one. */
  function CacheAfter(cache: Cache, writes: seq<(string, CacheEntry)>): (c: Cache)
    ensures forall t :: t in c <==> t in cache || exists i :: 0 <= i < |writes| && writes[i].0 == t
    decreases |writes|
  {
    if |writes| == 0 then cache
    else
      var c := CacheAfter(cache[writes[0].0 := writes[0].1], writes[1..]);
      assert forall i :: 1 <= i < |writes| ==> writes[i] == writes[1..][i - 1];
      c
  }

  datatype RedeemError = Unreadable | TokenExpired

  /** `GetOriginalToken(tempToken)` at instant `now`: the original token, or
      "token expired" and the cache file removed once `now` is past the
      expiry. */
  function GetOriginalToken(cache: Cache, temp: string, now: int): (r: (Cache, Result<string, RedeemError>))
    ensures temp !in cache ==> r == (cache, Err(Unreadable))
    ensures temp in cache ==> (r.1 == Err(TokenExpired) <==> now > cache[temp].expiresAt)
    ensures r.1 == Err(TokenExpired) ==> r.0 == cache - {temp}
    ensures r.1.Ok? ==> temp in cache && r.1.value == cache[temp].original && r.0 == cache
  {
    if temp !in cache then (cache, Err(Unreadable))
    else if After(now, cache[temp].expiresAt) then (cache - {temp}, Err(TokenExpired))
    else (cache, Ok(cache[temp].original))
  }

  /** A temporary token whose cache file was written last among files for
      that token redeems for the original it recorded until its expiry. */
  lemma {:induction false} RedeemAfterWrite(cache: Cache, writes: seq<(string, CacheEntry)>, i: nat, now: int)
    requires i < |writes|
    requires forall k :: i < k < |writes| ==> writes[k].0 != writes[i].0
    ensures var c := CacheAfter(cache, writes);
            && writes[i].0 in c && c[writes[i].0] == writes[i].1
            && (GetOriginalToken(c, writes[i].0, now).1 == Ok(writes[i].1.original)
                <==> now <= writes[i].1.expiresAt)
    decreases |writes|
  {
    if i == 0 {
      CacheAfterUntouched(cache[writes[0].0 := writes[0].1], writes[1..], writes[0].0);
    } else {
      forall k | i - 1 < k < |writes[1..]| ensures writes[1..][k].0 != writes[1..][i - 1].0 {
        assert writes[1..][k] == writes[k + 1];
      }
      RedeemAfterWrite(cache[writes[0].0 := writes[0].1], writes[1..], i - 1, now);
    }
  }

  /** The round trip of the cache: after a successful rewrite, the
      temporary token now held by the `k`-th rewritten users entry redeems,
      until the expiry, for the token that entry held before. A later
      temporary token of the same rewrite that happens to coincide with it
      overwrites its cache file, so the later ones must differ. */
  lemma RedeemRewritten(parsed: Result<Node, string>, env: Env, cache: Cache, k: nat, now: int)
    requires parsed.Ok? && parsed.value.Map?
    requires ModifyKubeconfig(parsed, env).value.Ok?
    requires k < |AuthUsersIn(parsed.value.entries)|
    requires forall k' :: k < k' < |AuthUsersIn(parsed.value.entries)| ==>
               TempToken(env.draws, k', env.expiresAt) != TempToken(env.draws, k, env.expiresAt)
    ensures var st := ModifyKubeconfig(parsed, env);
            var before := AuthUsersIn(parsed.value.entries)[k];
            var temp := TempToken(env.draws, k, env.expiresAt);
            && |AuthUsersIn(st.value.value.entries)| == |AuthUsersIn(parsed.value.entries)|
            && TokenOf(AuthUsersIn(st.value.value.entries)[k]) == Some(Scalar(temp))
            && (GetOriginalToken(CacheAfter(cache, st.writes), temp, now).1
                  == Ok(OriginalText(TokenOf(before), env.show))
                <==> now <= env.expiresAt)
  {
    var st := ModifyKubeconfig(parsed, env);
    ModifyKubeconfigCaches(parsed, env);
    assert st.writes[k].0 == Tokens(env)(k);
    forall k' | k < k' < |st.writes| ensures st.writes[k'].0 != st.writes[k].0 {
      assert st.writes[k'].0 == Tokens(env)(k');
    }
    assert Recorded(AuthUsersIn(parsed.value.entries)[k], AuthUsersIn(st.value.value.entries)[k], st.writes[k], env);
    RedeemAfterWrite(cache, st.writes, k, now);
  }

  lemma {:induction false} CacheAfterUntouched(cache: Cache, writes: seq<(string, CacheEntry)>, t: string)
    requires t in cache
    requires forall k :: 0 <= k < |writes| ==> writes[k].0 != t
    ensures t in CacheAfter(cache, writes) && CacheAfter(cache, writes)[t] == cache[t]
    decreases |writes|
  {
    if |writes| > 0 {
      forall k | 0 <= k < |writes[1..]| ensures writes[1..][k].0 != t {
        assert writes[1..][k] == writes[k + 1];
      }
      CacheAfterUntouched(cache[writes[0].0 := writes[0].1], writes[1..], t);
    }
  }

  // ---------------------------------------------------------------------------
  // The exec-argument expiry
  // ---------------------------------------------------------------------------

  const ExpiryFlag: Node := Scalar("--expiry")

  /** Position `i` holds "--expiry" followed by a text argument. */
  predicate FlagAt(args: seq<Node>, i: nat) {
    i + 1 < |args| && args[i] == ExpiryFlag && args[i + 1].Scalar?
  }

  /** The first position holding "--expiry" followed by a text argument. */
  function ExpiryIndex(args: seq<Node>): (r: Option<nat>)
    ensures r.Some? ==> FlagAt(args, r.value) && forall i :: 0 <= i < r.value ==> !FlagAt(args, i)
    ensures r.None? ==> forall i :: 0 <= i < |args| ==> !FlagAt(args, i)
    decreases |args|
  {
    if |args| < 2 then None
    else if FlagAt(args, 0) then Some(0)
    else
      assert forall i :: 1 <= i < |args| ==> (FlagAt(args, i) <==> FlagAt(args[1..], i - 1));
      match ExpiryIndex(args[1..])
      case None => None
      case Some(k) => Some(k + 1)
  }

  /** A "--expiry" in last position has no successor and is never chosen. */
  lemma TrailingFlagSkipped(args: seq<Node>)
    requires |args| > 0 && args[|args| - 1] == ExpiryFlag
    ensures ExpiryIndex(args) != Some(|args| - 1)
  {
  }

  /** The exec arguments of a users entry, `user.exec.args`, when every step
      is of the right kind. */
  function ExecArgs(u: Node): Option<seq<Node>> {
    match AuthOf(u)
    case None => None
    case Some(auth) =>
      match Lookup(auth, "exec")
      case Some(Map(exec)) =>
        (match Lookup(exec, "args")
         case Some(List(args)) => Some(args)
         case _ => None)
      case _ => None
  }

  /** The expiry text of the first users entry that has one, reading each
      entry's exec arguments with `args`. */
  function ExpiryInUsers(us: seq<Node>, args: Node -> Option<seq<Node>>): Option<string>
    decreases |us|
  {
    if |us| == 0 then None
    else match args(us[0])
      case Some(a) =>
        (match ExpiryIndex(a)
         case Some(i) => Some(a[i + 1].text)
         case None => ExpiryInUsers(us[1..], args))
      case None => ExpiryInUsers(us[1..], args)
  }

  /** The expiry text of the first `users` entry that has one. */
  function ExpiryInItems(items: Entries, args: Node -> Option<seq<Node>>): Option<string>
    decreases |items|
  {
    if |items| == 0 then None
    else
      var here := if items[0].0 == "users" && items[0].1.List? then ExpiryInUsers(items[0].1.items, args) else None;
      if here.Some? then here else ExpiryInItems(items[1..], args)
  }

  datatype ExpiryError =
    | Undecodable(msg: string)     // reading or decoding the file failed
    | BadTimestamp(msg: string)    // the argument is not an RFC 3339 timestamp
    | NoExpiry                     // "no token expiry found"

  /** `VerifyTokenExpiry(kubeconfigPath)` at instant `now`, given the decoded
      file; `parseTime` is `time.Parse(time.RFC3339, ...)`. On success, whether
      the token has expired and the expiry. */
  function VerifyTokenExpiry(parsed: Result<Node, string>, now: int,
                             parseTime: string -> Result<int, string>): (r: Result<(bool, int), ExpiryError>)
    ensures r.Ok? ==> (r.value.0 <==> now > r.value.1)
    ensures r == Err(NoExpiry) <==>
              parsed.Ok? && parsed.value.Map? && ExpiryInItems(parsed.value.entries, ExecArgs).None?
    ensures r.Ok? ==>
              && parsed.Ok? && parsed.value.Map? && ExpiryInItems(parsed.value.entries, ExecArgs).Some?
              && parseTime(ExpiryInItems(parsed.value.entries, ExecArgs).value) == Ok(r.value.1)
    ensures (parsed.Ok? && parsed.value.Map? && ExpiryInItems(parsed.value.entries, ExecArgs).Some?
             && parseTime(ExpiryInItems(parsed.value.entries, ExecArgs).value).Ok?) ==> r.Ok?
    ensures (parsed.Ok? && parsed.value.Map? && ExpiryInItems(parsed.value.entries, ExecArgs).Some?
             && parseTime(ExpiryInItems(parsed.value.entries, ExecArgs).value).Err?) ==>
              r == Err(BadTimestamp(parseTime(ExpiryInItems(parsed.value.entries, ExecArgs).value).error))
    ensures parsed.Err? ==> r == Err(Undecodable(parsed.error))
  {
    ReadExpiry(parsed, now, parseTime, ExecArgs)
  }

  /** The body of `VerifyTokenExpiry` with `args` reading a users entry's
      exec arguments. */
  function ReadExpiry(parsed: Result<Node, string>, now: int, parseTime: string -> Result<int, string>,
                      args: Node -> Option<seq<Node>>): Result<(bool, int), ExpiryError>
  {
    match parsed
    case Err(e) => Err(Undecodable(e))
    case Ok(doc) =>
      if !doc.Map? then Err(Undecodable("cannot unmarshal into a mapping"))
      else match ExpiryInItems(doc.entries, args)
        case None => Err(NoExpiry)
        case Some(s) =>
          match parseTime(s)
          case Err(e) => Err(BadTimestamp(e))
          case Ok(t) => Ok((After(now, t), t))
  }

  /** Every entry of every `users` list, in document order. */
  function UsersIn(items: Entries): seq<Node>
    decreases |items|
  {
    if |items| == 0 then []
    else
      (if items[0].0 == "users" && items[0].1.List? then items[0].1.items else [])
      + UsersIn(items[1..])
  }

  /** A users entry whose exec arguments hold "--expiry" followed by a text
      argument somewhere. */
  predicate Carries(u: Node) {
    ExecArgs(u).Some? && exists i :: 0 <= i < |ExecArgs(u).value| && FlagAt(ExecArgs(u).value, i)
  }

  /** The text after the first such "--expiry" of an entry that carries one. */
  function ExpiryText(u: Node): string
    requires Carries(u)
  {
    var a := ExecArgs(u).value;
    assert ExpiryIndex(a).Some?;
    a[ExpiryIndex(a).value + 1].text
  }

  /** `k` is the first entry of `us` that carries an expiry. */
  predicate FirstCarrier(us: seq<Node>, k: int) {
    0 <= k < |us| && Carries(us[k]) && forall j :: 0 <= j < k ==> !Carries(us[j])
  }

  /** The search over the `users` keys is a search over their entries laid
      end to end. */
  lemma {:induction false} ExpiryInItemsFlat(items: Entries, args: Node -> Option<seq<Node>>)
    ensures ExpiryInItems(items, args) == ExpiryInUsers(UsersIn(items), args)
    decreases |items|
  {
    if |items| > 0 {
      var here := if items[0].0 == "users" && items[0].1.List? then items[0].1.items else [];
      ExpiryInItemsFlat(items[1..], args);
      ExpiryInUsersAppend(here, UsersIn(items[1..]), args);
    }
  }

  lemma {:induction false} ExpiryInUsersAppend(us: seq<Node>, vs: seq<Node>, args: Node -> Option<seq<Node>>)
    ensures ExpiryInUsers(us + vs, args) ==
              if ExpiryInUsers(us, args).Some? then ExpiryInUsers(us, args) else ExpiryInUsers(vs, args)
    decreases |us|
  {
    if |us| == 0 {
      assert us + vs == vs;
    } else {
      assert (us + vs)[0] == us[0];
      assert (us + vs)[1..] == us[1..] + vs;
      ExpiryInUsersAppend(us[1..], vs, args);
    }
  }

  /** The exec-argument search finds nothing exactly when no entry carries an
      expiry, and otherwise finds the expiry of the first entry that does. */
  lemma {:induction false} ExpiryInUsersFirst(us: seq<Node>)
    ensures ExpiryInUsers(us, ExecArgs).None? <==> forall k :: 0 <= k < |us| ==> !Carries(us[k])
    ensures ExpiryInUsers(us, ExecArgs).Some? ==>
              exists k :: FirstCarrier(us, k) && ExpiryInUsers(us, ExecArgs).value == ExpiryText(us[k])
    decreases |us|
  {
    if |us| > 0 {
      if Carries(us[0]) {
        CarrierHead(us);
      } else {
        ExpiryInUsersFirst(us[1..]);
        SkipHead(us);
        if ExpiryInUsers(us, ExecArgs).Some? {
          var k :| FirstCarrier(us[1..], k) && ExpiryInUsers(us[1..], ExecArgs).value == ExpiryText(us[1..][k]);
          assert FirstCarrier(us, k + 1);
        }
      }
    }
  }

  lemma CarrierHead(us: seq<Node>)
    requires |us| > 0 && Carries(us[0])
    ensures ExpiryInUsers(us, ExecArgs) == Some(ExpiryText(us[0])) && FirstCarrier(us, 0)
  {
    assert ExpiryIndex(ExecArgs(us[0]).value).Some?;
  }

  lemma SkipHead(us: seq<Node>)
    requires |us| > 0 && !Carries(us[0])
    ensures ExpiryInUsers(us, ExecArgs) == ExpiryInUsers(us[1..], ExecArgs)
    ensures forall k :: 1 <= k < |us| ==> us[k] == us[1..][k - 1]
  {
    var a := ExecArgs(us[0]);
    assert a.Some? ==> ExpiryIndex(a.value).None?;
  }

  /** `VerifyTokenExpiry`'s search, stated without it: "no token expiry
      found" exactly when no users entry anywhere carries "--expiry" with a
      text argument, and otherwise the argument after the first such flag of
      the first entry that carries one. */
  lemma ExpiryFromFirstCarrier(items: Entries)
    ensures ExpiryInItems(items, ExecArgs).None? <==>
              forall k :: 0 <= k < |UsersIn(items)| ==> !Carries(UsersIn(items)[k])
    ensures ExpiryInItems(items, ExecArgs).Some? ==>
              exists k :: FirstCarrier(UsersIn(items), k)
                          && ExpiryInItems(items, ExecArgs).value == ExpiryText(UsersIn(items)[k])
  {
    ExpiryInItemsFlat(items, ExecArgs);
    ExpiryInUsersFirst(UsersIn(items));
  }

  // ---------------------------------------------------------------------------
  // The two loops under yaml.v2's decoding, as written
  // ---------------------------------------------------------------------------

  // gopkg.in/yaml.v2 decodes every mapping nested in a `yaml.MapSlice` target
  // as a `yaml.MapSlice` too. Both loops decode into a `yaml.MapSlice`
  // (config/token.go:59 and :156) and then assert that a users entry is a
  // `map[interface{}]interface{}` (:69 and :165). That assertion never holds,
  // so the loops pass every users entry over. `ModifyKubeconfig` and
  // `VerifyTokenExpiry` above are the loops as intended, with the assertion
  // holding on every mapping.

  /** The rewrite of one users entry as written: it is passed over. */
  const PassOver: (Node, nat) -> Step<Node> := (u: Node, m: nat) => Step(Ok(u), m, [])

  /** The exec arguments of a users entry as written: never reached. */
  const NoArgs: Node -> Option<seq<Node>> := (u: Node) => None

  /** `ModifyKubeconfig` as written. */
  function ModifyKubeconfigAsWritten(parsed: Result<Node, string>): Step<Node> {
    RewriteDocument(parsed, PassOver)
  }

  /** `VerifyTokenExpiry` as written. */
  function VerifyTokenExpiryAsWritten(parsed: Result<Node, string>, now: int,
                                      parseTime: string -> Result<int, string>): Result<(bool, int), ExpiryError> {
    ReadExpiry(parsed, now, parseTime, NoArgs)
  }

  lemma {:induction false} PassOverUsers(us: seq<Node>, j: nat)
    ensures RewriteUsers(us, j, PassOver) == Step(Ok(us), j, [])
    decreases |us|
  {
    if |us| > 0 {
      PassOverUsers(us[1..], j);
      assert [us[0]] + us[1..] == us;
    }
  }

  lemma {:induction false} PassOverItems(items: Entries, j: nat)
    ensures RewriteItems(items, j, PassOver) == Step(Ok(items), j, [])
    decreases |items|
  {
    if |items| > 0 {
      if items[0].0 == "users" && items[0].1.List? {
        PassOverUsers(items[0].1.items, j);
      }
      PassOverItems(items[1..], j);
      assert [items[0]] + items[1..] == items;
    }
  }

  lemma {:induction false} NoArgsNoExpiry(items: Entries)
    ensures ExpiryInItems(items, NoArgs).None?
    decreases |items|
  {
    if |items| > 0 {
      if items[0].0 == "users" && items[0].1.List? {
        NoArgsUsers(items[0].1.items);
      }
      NoArgsNoExpiry(items[1..]);
    }
  }

  lemma {:induction false} NoArgsUsers(us: seq<Node>)
    ensures ExpiryInUsers(us, NoArgs).None?
    decreases |us|
  {
    if |us| > 0 {
      NoArgsUsers(us[1..]);
    }
  }

  /** As written, a readable kubeconfig comes back unchanged: no users entry
      gets a temporary token and no cache file is written. */
  lemma AsWrittenRewritesNothing(parsed: Result<Node, string>)
    requires parsed.Ok? && parsed.value.Map?
    ensures ModifyKubeconfigAsWritten(parsed) == Step(Ok(parsed.value), 0, [])
  {
    PassOverItems(parsed.value.entries, 0);
  }

  /** As written, a readable kubeconfig never yields an expiry. */
  lemma AsWrittenFindsNoExpiry(parsed: Result<Node, string>, now: int, parseTime: string -> Result<int, string>)
    requires parsed.Ok? && parsed.value.Map?
    ensures VerifyTokenExpiryAsWritten(parsed, now, parseTime) == Err(NoExpiry)
  {
    NoArgsNoExpiry(parsed.value.entries);
  }

  /** A kubeconfig with one user, "dev", whose token is "abc" and whose exec
      arguments carry an expiry. */
  const OneUser: Node :=
    Map([("users", List([Map([("name", Scalar("dev")),
                              ("user", Map([("token", Scalar("abc")),
                                            ("exec", Map([("args", List([ExpiryFlag, Scalar("2030-01-01T00:00:00Z")]))]))]))])]))])

  /** The one users entry of `OneUser`, and its `user` mapping. */
  const DevUser: Node := OneUser.entries[0].1.items[0]
  const DevAuth: Entries := DevUser.entries[1].1.entries

  /** On that kubeconfig the program as written caches nothing and finds no
      expiry, while the intended loops cache "abc" under the first temporary
      token and find the expiry. */
  lemma OneUserAsWritten(now: int, parseTime: string -> Result<int, string>)
    ensures ModifyKubeconfigAsWritten(Ok(OneUser)) == Step(Ok(OneUser), 0, [])
    ensures VerifyTokenExpiryAsWritten(Ok(OneUser), now, parseTime) == Err(NoExpiry)
  {
    AsWrittenRewritesNothing(Ok(OneUser));
    AsWrittenFindsNoExpiry(Ok(OneUser), now, parseTime);
  }

  /** The intended rewrite of that kubeconfig caches "abc" under the first
      temporary token. */
  lemma OneUserIntended(env: Env)
    requires WriteOutcome(env, 0).None?
    ensures ModifyKubeconfig(Ok(OneUser), env).writes
            == [(TempToken(env.draws, 0, env.expiresAt), CacheEntry("abc", env.expiresAt))]
  {
    assert Lookup(DevUser.entries, "user") == Some(Map(DevAuth));
    assert Lookup(DevAuth, "token") == Some(Scalar("abc"));
    assert OneUser.entries == [("users", List([DevUser]))];
    SingleUserWrites(DevUser, env);
  }

  /** A document whose only entry is a `users` sequence of one entry with a
      `user` mapping writes one cache file, for that entry's token. */
  lemma SingleUserWrites(u: Node, env: Env)
    requires AuthOf(u).Some? && WriteOutcome(env, 0).None?
    ensures RewriteItems([("users", List([u]))], 0, UserRewrite(env)).writes
            == [(TempToken(env.draws, 0, env.expiresAt), CacheEntry(OriginalText(TokenOf(u), env.show), env.expiresAt))]
  {
    var user := UserRewrite(env);
    var w := [(TempToken(env.draws, 0, env.expiresAt), CacheEntry(OriginalText(TokenOf(u), env.show), env.expiresAt))];
    assert RewriteUser(u, 0, env).writes == w;
    assert RewriteUsers([u], 0, user).writes == w + [];
    assert RewriteItem(("users", List([u])), 0, user).writes == w;
    assert RewriteItems([("users", List([u]))], 0, user).writes == w + [];
  }

  /** The intended expiry search finds the expiry of that kubeconfig. */
  lemma OneUserExpiry()
    ensures ExpiryInItems(OneUser.entries, ExecArgs) == Some("2030-01-01T00:00:00Z")
  {
    var args := [ExpiryFlag, Scalar("2030-01-01T00:00:00Z")];
    assert Lookup(DevUser.entries, "user") == Some(Map(DevAuth));
    assert Lookup(DevAuth, "exec") == Some(Map([("args", List(args))]));
    assert ExecArgs(DevUser) == Some(args);
    assert ExpiryIndex(args) == Some(0);
    assert ExpiryInUsers([DevUser], ExecArgs) == Some("2030-01-01T00:00:00Z");
  }
}
