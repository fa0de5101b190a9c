/**
  API keys: drawing a prefix and printing a key (Services/ApiKeys/ApiKeyService.cs), and reading one
  back from an Authorization header (Handlers/Authentication/ApiKeyAuthenticationHandler.cs).
*/
module ApiKeys {
  import opened Options
  import opened Strings

  const PREFIX_LENGTH := 12
  const SCHEME := "ApiKey"

  // ---------------------------------------------------------------------------------------------
  // Prefixes
  // ---------------------------------------------------------------------------------------------

  predicate IsAlphanumeric(c: char) {
    'a' <= c <= 'z' || 'A' <= c <= 'Z' || '0' <= c <= '9'
  }

  function Alphanumerics(s: string): string {
    if s == "" then ""
    else Alphanumerics(s[..|s| - 1]) + if IsAlphanumeric(s[|s| - 1]) then [s[|s| - 1]] else ""
  }

  function Joined(tokens: seq<string>): string {
    if tokens == [] then "" else Joined(tokens[..|tokens| - 1]) + tokens[|tokens| - 1]
  }

  lemma {:induction false} AlphanumericsAppend(s: string, t: string)
    ensures Alphanumerics(s + t) == Alphanumerics(s) + Alphanumerics(t)
  {
    if t == "" {
      assert s + t == s;
    } else {
      assert (s + t)[..|s + t| - 1] == s + t[..|t| - 1];
      AlphanumericsAppend(s, t[..|t| - 1]);
    }
  }

  /** Exactly the letters and digits of ASCII are kept, in their order. */
  lemma KeptExactly(s: string, k: nat)
    requires k < |s|
    ensures var c := s[k];
            var keeps := 'a' <= c <= 'z' || 'A' <= c <= 'Z' || '0' <= c <= '9';
            Alphanumerics(s[..k + 1]) == Alphanumerics(s[..k]) + if keeps then [c] else ""
  {
    assert s[..k + 1][..k] == s[..k];
  }

  lemma {:induction false} AllAlphanumeric(s: string)
    ensures forall i :: 0 <= i < |Alphanumerics(s)| ==> IsAlphanumeric(Alphanumerics(s)[i])
  {
    if s != "" {
      AllAlphanumeric(s[..|s| - 1]);
    }
  }

  lemma {:induction false} DrawnIsPrefix(tokens: seq<string>, n: nat)
    requires n <= |tokens|
    ensures Alphanumerics(Joined(tokens[..n])) <= Alphanumerics(Joined(tokens))
  {
    if n == |tokens| {
      assert tokens[..n] == tokens;
    } else {
      var last := |tokens| - 1;
      DrawnIsPrefix(tokens[..last], n);
      assert tokens[..last][..n] == tokens[..n];
      AlphanumericsAppend(Joined(tokens[..last]), tokens[last]);
    }
  }

  lemma DrawStep(tokens: seq<string>, n: nat)
    requires n < |tokens|
    ensures Alphanumerics(Joined(tokens[..n + 1])) == Alphanumerics(Joined(tokens[..n])) + Alphanumerics(tokens[n])
  {
    assert tokens[..n + 1][..n] == tokens[..n];
    AlphanumericsAppend(Joined(tokens[..n]), tokens[n]);
  }

  lemma NothingKept(token: string)
    ensures Alphanumerics(token[..0]) == ""
  {
  }

  lemma NothingDrawn(tokens: seq<string>)
    ensures Alphanumerics(Joined(tokens[..0])) == ""
  {
  }

  function Cut(s: string): string {
    if |s| <= PREFIX_LENGTH then s else s[..PREFIX_LENGTH]
  }

  /** `tokens` are the opaque tokens the generator will hand out; they must hold enough to draw from. */
  method CreatePrefix(tokens: seq<string>) returns (prefix: string)
    requires |Alphanumerics(Joined(tokens))| >= PREFIX_LENGTH
    ensures prefix == Alphanumerics(Joined(tokens))[..PREFIX_LENGTH]
    ensures '_' !in prefix
  {
    hide Joined, Alphanumerics;
    NothingDrawn(tokens);
    prefix := "";
    var drawn := 0;
    while |prefix| < PREFIX_LENGTH
      invariant 0 <= drawn <= |tokens|
      invariant prefix == Cut(Alphanumerics(Joined(tokens[..drawn])))
      decreases |tokens| - drawn
    {
      assert tokens[..|tokens|] == tokens;
      DrawStep(tokens, drawn);
      prefix := AppendFrom(prefix, tokens[drawn]);
      drawn := drawn + 1;
    }
    DrawnIsPrefix(tokens, drawn);
    AllAlphanumeric(Joined(tokens));
  }

  /** The inner loop of CreatePrefix. */
  method AppendFrom(start: string, token: string) returns (prefix: string)
    requires |start| < PREFIX_LENGTH
    ensures prefix == Cut(start + Alphanumerics(token))
  {
    hide Alphanumerics;
    prefix := start;
    NothingKept(token);
    for k := 0 to |token|
      invariant |prefix| < PREFIX_LENGTH && prefix == start + Alphanumerics(token[..k])
    {
      KeptExactly(token, k);
      if IsAlphanumeric(token[k]) {
        prefix := prefix + [token[k]];
        if |prefix| == PREFIX_LENGTH {
          FullAt(start, token, k + 1);
          return;
        }
      }
    }
    assert token[..|token|] == token;
  }

  lemma FullAt(start: string, token: string, k: nat)
    requires k <= |token| && |start + Alphanumerics(token[..k])| == PREFIX_LENGTH
    ensures Cut(start + Alphanumerics(token)) == start + Alphanumerics(token[..k])
  {
    hide Alphanumerics;
    assert token == token[..k] + token[k..];
    AlphanumericsAppend(token[..k], token[k..]);
    assert start + Alphanumerics(token) == start + Alphanumerics(token[..k]) + Alphanumerics(token[k..]);
  }

  // ---------------------------------------------------------------------------------------------
  // Printing and parsing
  // ---------------------------------------------------------------------------------------------

  function Printed(prefix: string, secret: string): string {
    "ak_" + prefix + "_" + secret
  }

  /** string.Split(c, n): at most n parts, cut from the left. */
  function Split(s: string, c: char, n: nat): seq<string>
    requires n >= 1
  {
    var i := IndexOf(s, c);
    if n == 1 || i < 0 then [s] else [s[..i]] + Split(s[i + 1..], c, n - 1)
  }

  predicate IsSpace(c: char) {
    c == ' ' || '\t' <= c <= '\r'
  }

  function TrimStart(s: string): string {
    if s != "" && IsSpace(s[0]) then TrimStart(s[1..]) else s
  }

  function TrimEnd(s: string): string {
    if s != "" && IsSpace(s[|s| - 1]) then TrimEnd(s[..|s| - 1]) else s
  }

  function Trim(s: string): string {
    TrimEnd(TrimStart(s))
  }

  /** The header without its scheme, which is matched in any case. */
  function Bare(header: string): string {
    var scheme := SCHEME + " ";
    if |header| >= |scheme| && LowerAll(header[..|scheme|]) == LowerAll(scheme) then header[|scheme|..] else header
  }

  /** TryReadCredential. */
  function Carried(header: string): Option<string> {
    if header == "" || !("ak_" <= Bare(header)) then None else Some(Trim(Bare(header)))
  }

  datatype Pair = Pair(prefix: string, secret: string)

  function Parse(presented: string): Option<Pair> {
    var segments := Split(presented, '_', 3);
    if |segments| != 3 then None else Some(Pair(segments[1], segments[2]))
  }

  lemma IndexOfJoint(a: string, c: char, b: string)
    requires c !in a
    ensures IndexOf(a + [c] + b, c) == |a|
  {
    var s := a + [c] + b;
    assert s[|a|] == c && forall k :: 0 <= k < |a| ==> s[k] == a[k];
  }

  lemma SplitTwo(rest: string)
    ensures var i := IndexOf(rest, '_');
            Split(rest, '_', 2) == if i < 0 then [rest] else [rest[..i], rest[i + 1..]]
  {
  }

  lemma ParseRest(rest: string)
    ensures Parse("ak_" + rest) == var i := IndexOf(rest, '_');
                                   if i < 0 then None else Some(Pair(rest[..i], rest[i + 1..]))
  {
    var presented := "ak_" + rest;
    assert presented == "ak" + ['_'] + rest;
    IndexOfJoint("ak", '_', rest);
    assert presented[..2] == "ak" && presented[2 + 1..] == rest;
    SplitTwo(rest);
  }

  lemma ParseOfPrinted(prefix: string, secret: string)
    requires '_' !in prefix
    ensures Parse(Printed(prefix, secret)) == Some(Pair(prefix, secret))
  {
    hide Parse, IndexOf;
    var rest := prefix + ['_'] + secret;
    assert Printed(prefix, secret) == "ak_" + rest;
    ParseRest(rest);
    IndexOfJoint(prefix, '_', secret);
    assert rest[..|prefix|] == prefix && rest[|prefix| + 1..] == secret;
  }

  lemma ParsedIsPrinted(presented: string, prefix: string, secret: string)
    requires "ak_" <= presented && Parse(presented) == Some(Pair(prefix, secret))
    ensures presented == Printed(prefix, secret) && '_' !in prefix
  {
    hide Parse, IndexOf;
    var rest := presented[3..];
    assert presented == "ak_" + rest;
    ParseRest(rest);
    assert rest == prefix + "_" + secret;
    assert "ak_" + (prefix + "_" + secret) == Printed(prefix, secret);
  }

  /** Parsing undoes printing: it finds the pair exactly when that pair prints to the credential. */
  lemma ParseExactly(presented: string, prefix: string, secret: string)
    requires "ak_" <= presented
    ensures Parse(presented) == Some(Pair(prefix, secret)) <==> presented == Printed(prefix, secret) && '_' !in prefix
  {
    hide Parse, Printed;
    if '_' !in prefix {
      ParseOfPrinted(prefix, secret);
    }
    if Parse(presented) == Some(Pair(prefix, secret)) {
      ParsedIsPrinted(presented, prefix, secret);
    }
  }

  // ---------------------------------------------------------------------------------------------
  // Keys
  // ---------------------------------------------------------------------------------------------

  /** An ideal hash: equal only for equal secrets. */
  datatype Digest = Digest(secret: string)

  datatype Key = Key(id: nat, owner: nat, hash: Digest, scopes: set<string>, revokedAt: Option<int>,
                     expiresAt: Option<int>, lastUsedAt: Option<int>)

  /** Forbidden for a scope the owner's roles do not grant; PrefixTaken where the unique index refuses. */
  datatype Creation = Created(printed: string) | Forbidden | PrefixTaken

  /** Keys by their prefix, which is unique. */
  type Table = map<string, Key>

  ghost predicate WellFormed(table: Table) {
    && (forall p :: p in table ==> '_' !in p)
    && (forall p, q :: p in table && q in table && table[p].id == table[q].id ==> p == q)
  }

  datatype Outcome = NoResult | Fail | Success(id: nat)

  predicate Live(key: Key, now: int) {
    key.revokedAt.None? && !(key.expiresAt.Some? && key.expiresAt.value <= now)
  }

  function Authenticated(table: Table, header: string, now: int): Outcome {
    var carried := Carried(header);
    if carried.None? then NoResult
    else
      var parsed := Parse(carried.value);
      if parsed.None? || parsed.value.prefix !in table || !Live(table[parsed.value.prefix], now)
         || table[parsed.value.prefix].hash != Digest(parsed.value.secret)
      then Fail else Success(table[parsed.value.prefix].id)
  }

  class ApiKeyStore {
    var keys: Table

    constructor ()
      ensures keys == map[] && WellFormed(keys)
    {
      keys := map[];
    }

    method Create(id: nat, owner: nat, scopes: seq<string>, granted: set<string>, tokens: seq<string>, secret: string,
                  expiresAt: Option<int>) returns (creation: Creation)
      requires WellFormed(keys) && forall p :: p in keys ==> keys[p].id != id
      requires |Alphanumerics(Joined(tokens))| >= PREFIX_LENGTH
      modifies this
      ensures WellFormed(keys)
      ensures creation.Forbidden? <==> exists scope :: scope in scopes && scope !in granted
      ensures !creation.Created? ==> keys == old(keys)
      ensures !creation.Forbidden? ==>
                var prefix := Alphanumerics(Joined(tokens))[..PREFIX_LENGTH];
                if prefix in old(keys) then creation.PrefixTaken?
                else creation == Created(Printed(prefix, secret)) && keys == old(keys)[prefix :=
                       Key(id, owner, Digest(secret), (set scope | scope in scopes), None, expiresAt, None)]
    {
      if exists scope :: scope in scopes && scope !in granted {
        return Forbidden;
      }
      var prefix := CreatePrefix(tokens);
      if prefix in keys {
        return PrefixTaken;
      }
      keys := keys[prefix := Key(id, owner, Digest(secret), (set scope | scope in scopes), None, expiresAt, None)];
      creation := Created(Printed(prefix, secret));
    }

    method Revoke(owner: nat, id: nat, now: int) returns (found: bool)
      requires WellFormed(keys)
      modifies this
      ensures WellFormed(keys) && keys.Keys == old(keys).Keys
      ensures found <==> exists p :: p in old(keys) && old(keys)[p].id == id && old(keys)[p].owner == owner
                                     && old(keys)[p].revokedAt.None?
      ensures forall p :: p in keys ==>
                var key := old(keys)[p];
                keys[p] == if key.id == id && key.owner == owner && key.revokedAt.None?
                           then key.(revokedAt := Some(now)) else key
    {
      if p :| p in keys && Revocable(keys[p], owner, id) {
        keys := keys[p := keys[p].(revokedAt := Some(now))];
        return true;
      }
      found := false;
    }

    method HandleAuthenticate(header: string, now: int) returns (outcome: Outcome)
      requires WellFormed(keys)
      modifies this
      ensures outcome == Authenticated(old(keys), header, now)
      ensures WellFormed(keys) && keys.Keys == old(keys).Keys
      ensures forall p :: p in keys ==>
                keys[p] == if outcome == Success(old(keys)[p].id)
                           then old(keys)[p].(lastUsedAt := Some(now)) else old(keys)[p]
    {
      var carried := Carried(header);
      if carried.None? {
        return NoResult;
      }
      var parsed := Parse(carried.value);
      if parsed.None? {
        return Fail;
      }
      var prefix := parsed.value.prefix;
      if prefix !in keys || keys[prefix].revokedAt.Some?
         || (keys[prefix].expiresAt.Some? && keys[prefix].expiresAt.value <= now) {
        return Fail;
      }
      if keys[prefix].hash != Digest(parsed.value.secret) {
        return Fail;
      }
      outcome := Success(keys[prefix].id);
      keys := keys[prefix := keys[prefix].(lastUsedAt := Some(now))];
    }
  }

  predicate Revocable(key: Key, owner: nat, id: nat) {
    key.id == id && key.owner == owner && key.revokedAt.None?
  }

  lemma {:induction false} TrimEndKeepsStart(s: string, start: string)
    requires start <= s && (start != "" ==> !IsSpace(start[|start| - 1]))
    ensures start <= TrimEnd(s)
  {
    if s != "" && IsSpace(s[|s| - 1]) {
      assert start <= s[..|s| - 1];
      TrimEndKeepsStart(s[..|s| - 1], start);
    }
  }

  lemma CarriedStarts(header: string)
    requires Carried(header).Some?
    ensures "ak_" <= Carried(header).value
  {
    var value := Bare(header);
    assert value[0] == 'a';
    TrimEndKeepsStart(value, "ak_");
  }

  // ---------------------------------------------------------------------------------------------
  // Headers
  // ---------------------------------------------------------------------------------------------

  predicate Blank(c: char) {
    c as int == 32 || 9 <= c as int <= 13
  }

  /** The header is the credential, bare or behind the scheme in any case, with blanks after it. */
  predicate Reads(header: string, scheme: string, credential: string, blanks: string) {
    && header == scheme + credential + blanks
    && (scheme == "" || LowerAll(scheme) == "apikey ")
    && "ak_" <= credential && !Blank(credential[|credential| - 1])
    && forall i :: 0 <= i < |blanks| ==> Blank(blanks[i])
  }

  lemma {:induction false} TrimEndSplits(s: string) returns (blanks: string)
    ensures s == TrimEnd(s) + blanks && forall i :: 0 <= i < |blanks| ==> Blank(blanks[i])
    ensures TrimEnd(s) != "" ==> !Blank(TrimEnd(s)[|TrimEnd(s)| - 1])
  {
    if s != "" && IsSpace(s[|s| - 1]) {
      blanks := TrimEndSplits(s[..|s| - 1]);
      blanks := blanks + [s[|s| - 1]];
    } else {
      blanks := "";
    }
  }

  lemma {:induction false} TrimEndJoined(s: string, blanks: string)
    requires s != "" && !Blank(s[|s| - 1]) && forall i :: 0 <= i < |blanks| ==> Blank(blanks[i])
    ensures TrimEnd(s + blanks) == s
  {
    if blanks == "" {
      assert s + blanks == s;
    } else {
      TrimEndJoined(s, blanks[..|blanks| - 1]);
      assert (s + blanks)[..|s + blanks| - 1] == s + blanks[..|blanks| - 1];
    }
  }

  /** What a header is read as: exactly the credential it carries, if it carries one. */
  lemma CarriedExactly(header: string, credential: string)
    ensures Carried(header) == Some(credential) <==> exists scheme, blanks :: Reads(header, scheme, credential, blanks)
  {
    if Carried(header) == Some(credential) {
      CarriedReads(header);
    }
    forall scheme, blanks | Reads(header, scheme, credential, blanks) ensures Carried(header) == Some(credential) {
      ReadsCarried(header, scheme, credential, blanks);
    }
  }

  lemma SchemeInLower()
    ensures LowerAll(SCHEME + " ") == "apikey " && |SCHEME + " "| == 7
  {
  }

  lemma CarriedIsBare(header: string)
    ensures Carried(header) == if header != "" && "ak_" <= Bare(header) then Some(TrimEnd(Bare(header))) else None
  {
    hide TrimEnd, LowerAll;
    if header != "" && "ak_" <= Bare(header) {
      assert Bare(header)[0] == 'a';
    }
  }

  lemma CarriedReads(header: string)
    requires Carried(header).Some?
    ensures exists scheme, blanks :: Reads(header, scheme, Carried(header).value, blanks)
  {
    hide LowerAll, TrimEnd, Carried;
    CarriedIsBare(header);
    CarriedStarts(header);
    SchemeInLower();
    var value := Bare(header);
    var blanks := TrimEndSplits(value);
    var scheme := header[..|header| - |value|];
    assert header == scheme + value;
    assert Reads(header, scheme, Carried(header).value, blanks);
  }

  lemma BareOf(scheme: string, key: string)
    requires scheme == "" || LowerAll(scheme) == "apikey "
    requires |key| >= 2 && key[0] == 'a' && key[1] == 'k'
    ensures Bare(scheme + key) == key
  {
    SchemeInLower();
    var header := scheme + key;
    if scheme == "" {
      assert header == key;
      if |header| >= 7 {
        assert LowerAll(header[..7])[1] == 'k' && "apikey "[1] == 'p';
      }
    } else {
      assert |scheme| == |LowerAll(scheme)| == 7;
      assert header[..7] == scheme && header[7..] == key;
    }
  }

  lemma ReadsCarried(header: string, scheme: string, credential: string, blanks: string)
    requires Reads(header, scheme, credential, blanks)
    ensures Carried(header) == Some(credential)
  {
    hide LowerAll, TrimEnd, Carried, Bare;
    var key := credential + blanks;
    assert header == scheme + key && key[0] == 'a' && key[1] == 'k' && key[2] == '_';
    BareOf(scheme, key);
    CarriedIsBare(header);
    TrimEndJoined(credential, blanks);
  }

  /** The header carries this credential. */
  ghost predicate Carries(header: string, credential: string) {
    exists scheme, blanks :: Reads(header, scheme, credential, blanks)
  }

  /**
    A header authenticates as a key exactly if it carries that key as it was printed, and the key is
    neither revoked nor expired. One that carries no credential at all is left to other schemes.
  */
  lemma AuthenticatesExactly(table: Table, header: string, now: int, prefix: string)
    requires WellFormed(table) && prefix in table
    ensures var key := table[prefix];
            Authenticated(table, header, now) == Success(key.id) <==>
            && Carries(header, "ak_" + prefix + "_" + key.hash.secret)
            && key.revokedAt.None? && (key.expiresAt.Some? ==> now < key.expiresAt.value)
    ensures Authenticated(table, header, now) == NoResult <==> forall credential :: !Carries(header, credential)
  {
    hide Parse, Reads, Carried;
    var carried, printed := Carried(header), Printed(prefix, table[prefix].hash.secret);
    forall credential ensures Carries(header, credential) <==> carried == Some(credential) {
      CarriedExactly(header, credential);
    }
    if carried.Some? {
      CarriedStarts(header);
      ParseExactly(carried.value, prefix, table[prefix].hash.secret);
      assert Carries(header, carried.value);
    }
  }
}
