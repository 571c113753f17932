/** One flat Redis key space used as several typed maps. */
module KeySpace {
  import opened Wrappers

  // ---------- Keys ----------

  datatype Key =
    | Token(uid: int)
    | LoginServer(uid: int)
    | UidInfo(uid: int)
    | NameInfo(name: string)
    | LoginCount
    | Email(address: string)      // the verification codes use the bare address

  function DigitChar(d: nat): (c: char)
    requires d < 10
    ensures '0' <= c <= '9'
  {
    '0' + d as char
  }

  function Digits(n: nat): (s: string)
    ensures s != [] && '0' <= s[0] <= '9'
  {
    if n < 10 then [DigitChar(n)] else Digits(n / 10) + [DigitChar(n % 10)]
  }

  /** std::to_string. */
  function Decimal(n: int): string {
    if n < 0 then "-" + Digits(-n) else Digits(n)
  }

  function Render(k: Key): string {
    match k
    case Token(uid) => "user_token_" + Decimal(uid)
    case LoginServer(uid) => "user_login_server_" + Decimal(uid)
    case UidInfo(uid) => "user_uid_info_" + Decimal(uid)
    case NameInfo(name) => "user_name_info_" + name
    case LoginCount => "login_count"
    case Email(address) => address
  }

  /** The number that a string of digits denotes. */
  function Denoted(s: string): int {
    if s == "" then 0 else 10 * Denoted(s[..|s| - 1]) + (s[|s| - 1] as int - '0' as int)
  }

  lemma {:induction false} DigitsDenote(n: nat)
    ensures Denoted(Digits(n)) == n
  {
    var s := Digits(n);
    if n >= 10 {
      DigitsDenote(n / 10);
      assert s[..|s| - 1] == Digits(n / 10);
    } else {
      assert s[..0] == "" && Denoted("") == 0;
    }
    assert s[|s| - 1] as int - '0' as int == n % 10;
  }

  lemma DigitsInjective(m: nat, n: nat)
    requires Digits(m) == Digits(n)
    ensures m == n
  {
    DigitsDenote(m);
    DigitsDenote(n);
  }

  lemma DecimalInjective(m: int, n: int)
    requires Decimal(m) == Decimal(n)
    ensures m == n
  {
    assert Decimal(m)[0] == '-' <==> m < 0;
    assert Decimal(n)[0] == '-' <==> n < 0;
    if m < 0 && n < 0 {
      assert Decimal(m)[1..] == Digits(-m) && Decimal(n)[1..] == Digits(-n);
      DigitsInjective(-m, -n);
    } else {
      DigitsInjective(m, n);
    }
  }

  /** The status server's own spelling of the key under which it stores a token. */
  function StatusTokenKey(uid: int): string {
    "user_token_" + if uid >= 0 then Digits(uid) else "-" + Digits(-uid)
  }

  /** The status server writes a user's token where the chat servers read it, and reads the counts where they write them. */
  lemma StatusServerKeys(uid: int)
    ensures Render(Token(uid)) == StatusTokenKey(uid) && Render(LoginCount) == "login_count"
  {
  }

  /** A user's number is written out in decimal. */
  lemma DecimalDenotes(n: int)
    ensures n >= 0 ==> Denoted(Decimal(n)) == n
    ensures n < 0 ==> Decimal(n)[0] == '-' && Denoted(Decimal(n)[1..]) == -n
  {
    if n >= 0 {
      DigitsDenote(n);
    } else {
      DigitsDenote(-n);
      assert Decimal(n)[1..] == Digits(-n);
    }
  }

  lemma AppendInjective(prefix: string, a: string, b: string)
    requires prefix + a == prefix + b
    ensures a == b
  {
    assert (prefix + a)[|prefix|..] == a && (prefix + b)[|prefix|..] == b;
  }

  /** The characters that tell the families apart: the first, and the one after "user_". */
  lemma FamilyCharacters(k: Key)
    requires !k.Email?
    ensures |Render(k)| > 5
    ensures Render(k)[0] == if k.LoginCount? then 'l' else 'u'
    ensures k.Token? ==> Render(k)[5] == 't'
    ensures k.LoginServer? ==> Render(k)[5] == 'l'
    ensures k.UidInfo? ==> Render(k)[5] == 'u'
    ensures k.NameInfo? ==> Render(k)[5] == 'n'
  {
  }

  /** The prefixes separate the families, and within each family the rendering is injective. */
  lemma RenderInjective(k: Key, l: Key)
    requires !k.Email? && !l.Email? && Render(k) == Render(l)
    ensures k == l
  {
    FamilyCharacters(k);
    FamilyCharacters(l);
    match k
    case Token(a) =>
      AppendInjective("user_token_", Decimal(a), Decimal(l.uid));
      DecimalInjective(a, l.uid);
    case LoginServer(a) =>
      AppendInjective("user_login_server_", Decimal(a), Decimal(l.uid));
      DecimalInjective(a, l.uid);
    case UidInfo(a) =>
      AppendInjective("user_uid_info_", Decimal(a), Decimal(l.uid));
      DecimalInjective(a, l.uid);
    case NameInfo(a) => AppendInjective("user_name_info_", a, l.name);
    case LoginCount =>
  }

  /** The address is not a key of another family. */
  ghost predicate Outside(address: string) {
    forall k: Key :: !k.Email? ==> Render(k) != address
  }

  ghost predicate Proper(k: Key) { k.Email? ==> Outside(k.address) }

  lemma ProperKeysAreDistinct(k: Key, l: Key)
    requires Proper(k) && Proper(l) && Render(k) == Render(l)
    ensures k == l
  {
    if !k.Email? && !l.Email? {
      RenderInjective(k, l);
    }
  }

  // ---------- Commands on the flat store ----------

  datatype Value = Str(text: string) | Hash(fields: map<string, int>)

  datatype Command =
    | Get(key: Key)
    | Set(key: Key, text: string)
    | HSet(field: string, count: int)     // on login_count
    | HGetAll                             // on login_count

  datatype Reply = Nil | Text(text: string) | Fields(fields: map<string, int>) | Done | WrongType

  /** GET and SET are sent for string keys, HSET and HGETALL for login_count. */
  predicate Sent(c: Command) {
    match c
    case Get(k) => !k.LoginCount?
    case Set(k, _) => !k.LoginCount?
    case _ => true
  }

  type Flat = map<string, Value>

  function Lookup(f: Flat, key: string): Option<Value> {
    if key in f then Some(f[key]) else None
  }

  function FlatStep(f: Flat, c: Command): (Flat, Reply) {
    match c
    case Get(k) => (
      match Lookup(f, Render(k))
      case None => (f, Nil)
      case Some(Str(text)) => (f, Text(text))
      case Some(Hash(_)) => (f, WrongType))
    case Set(k, text) => (f[Render(k) := Str(text)], Done)
    case HSet(field, count) => (
      match Lookup(f, Render(LoginCount))
      case None => (f[Render(LoginCount) := Hash(map[field := count])], Done)
      case Some(Hash(h)) => (f[Render(LoginCount) := Hash(h[field := count])], Done)
      case Some(Str(_)) => (f, WrongType))
    case HGetAll => (
      match Lookup(f, Render(LoginCount))
      case None => (f, Fields(map[]))
      case Some(Hash(h)) => (f, Fields(h))
      case Some(Str(_)) => (f, WrongType))
  }

  // ---------- The typed maps ----------

  datatype Typed = Typed(
    tokens: map<int, string>,
    loginServers: map<int, string>,
    uidInfos: map<int, string>,
    nameInfos: map<string, string>,
    loginCount: map<string, int>,
    codes: map<string, string>)

  const NOTHING := Typed(map[], map[], map[], map[], map[], map[])

  function Entry<K(==)>(m: map<K, string>, k: K): Option<Value> {
    if k in m then Some(Str(m[k])) else None
  }

  function TypedLookup(t: Typed, k: Key): Option<Value> {
    match k
    case Token(uid) => Entry(t.tokens, uid)
    case LoginServer(uid) => Entry(t.loginServers, uid)
    case UidInfo(uid) => Entry(t.uidInfos, uid)
    case NameInfo(name) => Entry(t.nameInfos, name)
    case Email(address) => Entry(t.codes, address)
    case LoginCount => if t.loginCount == map[] then None else Some(Hash(t.loginCount))
  }

  function TypedSet(t: Typed, k: Key, text: string): Typed {
    match k
    case Token(uid) => t.(tokens := t.tokens[uid := text])
    case LoginServer(uid) => t.(loginServers := t.loginServers[uid := text])
    case UidInfo(uid) => t.(uidInfos := t.uidInfos[uid := text])
    case NameInfo(name) => t.(nameInfos := t.nameInfos[name := text])
    case Email(address) => t.(codes := t.codes[address := text])
    case LoginCount => t
  }

  function TypedStep(t: Typed, c: Command): (Typed, Reply) {
    match c
    case Get(k) => (
      match TypedLookup(t, k)
      case Some(Str(text)) => (t, Text(text))
      case _ => (t, Nil))
    case Set(k, text) => (TypedSet(t, k, text), Done)
    case HSet(field, count) => (t.(loginCount := t.loginCount[field := count]), Done)
    case HGetAll => (t, Fields(t.loginCount))
  }

  // ---------- Refinement ----------

  /** The flat store shows every proper key the way the typed maps do. */
  ghost predicate Represents(f: Flat, t: Typed) {
    forall k: Key :: Proper(k) ==> Lookup(f, Render(k)) == TypedLookup(t, k)
  }

  ghost predicate ProperCommand(c: Command) {
    Sent(c) && (c.Get? || c.Set? ==> Proper(c.key))
  }

  lemma TypedSetLookup(t: Typed, k: Key, text: string, l: Key)
    requires !k.LoginCount?
    ensures TypedLookup(TypedSet(t, k, text), l) == if l == k then Some(Str(text)) else TypedLookup(t, l)
  {
  }

  lemma SetRefines(f: Flat, t: Typed, written: Key, value: Value, t': Typed)
    requires Represents(f, t) && Proper(written)
    requires forall k: Key :: TypedLookup(t', k) == if k == written then Some(value) else TypedLookup(t, k)
    ensures Represents(f[Render(written) := value], t')
  {
    hide Render, TypedLookup;
    var f' := f[Render(written) := value];
    forall k: Key | Proper(k) ensures Lookup(f', Render(k)) == TypedLookup(t', k) {
      assert Lookup(f, Render(k)) == TypedLookup(t, k);
      if Render(k) == Render(written) {
        ProperKeysAreDistinct(k, written);
      }
    }
  }

  /** Each command keeps the correspondence and gets the same reply from both. */
  lemma StepRefines(f: Flat, t: Typed, c: Command)
    requires Represents(f, t) && ProperCommand(c)
    ensures Represents(FlatStep(f, c).0, TypedStep(t, c).0)
    ensures FlatStep(f, c).1 == TypedStep(t, c).1
  {
    hide Render, Represents;
    match c
    case Get(k) => LookupRepresents(f, t, k);
    case Set(k, text) =>
      forall l: Key ensures TypedLookup(TypedSet(t, k, text), l) == if l == k then Some(Str(text)) else TypedLookup(t, l) {
        TypedSetLookup(t, k, text, l);
      }
      SetRefines(f, t, k, Str(text), TypedSet(t, k, text));
    case HSet(field, count) =>
      LookupRepresents(f, t, LoginCount);
      var t' := t.(loginCount := t.loginCount[field := count]);
      assert t'.loginCount[field] == count;
      SetRefines(f, t, LoginCount, Hash(t'.loginCount), t');
    case HGetAll => LookupRepresents(f, t, LoginCount);
  }

  lemma LookupRepresents(f: Flat, t: Typed, k: Key)
    requires Represents(f, t) && Proper(k)
    ensures Lookup(f, Render(k)) == TypedLookup(t, k)
  {
    hide Render, TypedLookup;
  }

  function FlatReplies(f: Flat, commands: seq<Command>): (r: seq<Reply>)
    ensures |r| == |commands|
    decreases |commands|
  {
    if commands == [] then []
    else [FlatStep(f, commands[0]).1] + FlatReplies(FlatStep(f, commands[0]).0, commands[1..])
  }

  function TypedReplies(t: Typed, commands: seq<Command>): (r: seq<Reply>)
    ensures |r| == |commands|
    decreases |commands|
  {
    if commands == [] then []
    else [TypedStep(t, commands[0]).1] + TypedReplies(TypedStep(t, commands[0]).0, commands[1..])
  }

  lemma {:induction false} RepliesAgree(f: Flat, t: Typed, commands: seq<Command>)
    requires Represents(f, t)
    requires forall i :: 0 <= i < |commands| ==> ProperCommand(commands[i])
    ensures FlatReplies(f, commands) == TypedReplies(t, commands)
    decreases |commands|
  {
    hide FlatStep, TypedStep, Represents;
    if commands != [] {
      StepRefines(f, t, commands[0]);
      RepliesAgree(FlatStep(f, commands[0]).0, TypedStep(t, commands[0]).0, commands[1..]);
    }
  }

  /** Any sequence of commands gets from the one flat store exactly the replies of independent typed maps, as long as no
      email address is a key of another family. */
  lemma FlatRefinesTyped(commands: seq<Command>)
    requires forall i :: 0 <= i < |commands| ==> ProperCommand(commands[i])
    ensures FlatReplies(map[], commands) == TypedReplies(NOTHING, commands)
  {
    RepliesAgree(map[], NOTHING, commands);
  }

  ghost predicate UsesAddress(commands: seq<Command>, address: string) {
    forall i :: 0 <= i < |commands| ==>
      Sent(commands[i]) && (commands[i].Get? || commands[i].Set? ==>
        (commands[i].key.Email? ==> commands[i].key.address == address))
  }

  /** That condition is exact: an address can be used beside the other families without disturbing or being disturbed
      precisely when it is none of their keys. */
  lemma AddressIsSafeIffOutside(address: string)
    ensures (forall commands :: UsesAddress(commands, address) ==>
               FlatReplies(map[], commands) == TypedReplies(NOTHING, commands))
            <==> Outside(address)
  {
    if Outside(address) {
      forall commands | UsesAddress(commands, address)
        ensures FlatReplies(map[], commands) == TypedReplies(NOTHING, commands)
      {
        FlatRefinesTyped(commands);
      }
    } else {
      var k: Key :| !k.Email? && Render(k) == address;
      var commands := [Set(Email(address), ""), if k.LoginCount? then HGetAll else Get(k)];
      assert UsesAddress(commands, address);
      Collision(k, commands);
    }
  }

  lemma Collision(k: Key, commands: seq<Command>)
    requires !k.Email?
    requires commands == [Set(Email(Render(k)), ""), if k.LoginCount? then HGetAll else Get(k)]
    ensures FlatReplies(map[], commands) != TypedReplies(NOTHING, commands)
  {
    var f, t := FlatStep(map[], commands[0]).0, TypedStep(NOTHING, commands[0]).0;
    assert FlatReplies(map[], commands)[1] == FlatReplies(f, commands[1..])[0] == FlatStep(f, commands[1]).1;
    assert TypedReplies(NOTHING, commands)[1] == TypedReplies(t, commands[1..])[0] == TypedStep(t, commands[1]).1;
  }
}
