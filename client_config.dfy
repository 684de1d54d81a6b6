/**
 * The client configuration of src/roq/python/client/details.hpp (and its
 * copy in src/main.cpp): `Config::dispatch`, which hands the trading
 * framework's handler the settings, one Account per account regex and one
 * Symbol per (exchange, symbol regex), and `set_flags`, which flattens a
 * dict of flags into a NUL-separated command line and the `argv` pointing
 * into it.
 *
 * `std::set<std::string>` and `std::map<std::string, ...>` are held as the
 * sequence of their elements in iteration order, which `std::string`'s `<`
 * makes strictly increasing.  The handler is the log of its calls.  The
 * `argv` entries are indices into the buffer.
 */
module ClientConfig {
  /** `std::string`'s `operator<`: lexicographic on characters. */
  predicate Below(a: string, b: string) {
    if a == [] then b != []
    else if b == [] then false
    else if a[0] != b[0] then a[0] < b[0]
    else Below(a[1..], b[1..])
  }

  lemma {:induction false} BelowIrreflexive(a: string)
    ensures !Below(a, a)
  {
    if a != [] {
      BelowIrreflexive(a[1..]);
    }
  }

  /** The iteration order of a `std::set<std::string>`: each element below the next. */
  predicate IsOrdered(s: seq<string>) {
    forall i, j :: 0 <= i < j < |s| ==> Below(s[i], s[j])
  }

  /** An ordered sequence holds each element once. */
  lemma OrderedIsDistinct(s: seq<string>, i: nat, j: nat)
    requires IsOrdered(s) && i < |s| && j < |s| && i != j
    ensures s[i] != s[j]
  {
    if i < j {
      BelowIrreflexive(s[i]);
    } else {
      BelowIrreflexive(s[j]);
    }
  }

  /** `roq::client::Settings`: two foreign enums, by ordinal. */
  datatype Settings = Settings(orderCancelPolicy: nat, orderManagement: nat)

  /** The symbol regexes of one exchange: a `std::map` entry. */
  datatype Exchange = Exchange(exchange: string, regexes: seq<string>)

  /** `Config`: the settings, the account regexes and the symbol regexes per exchange. */
  datatype Config = Config(settings: Settings, accounts: seq<string>, symbols: seq<Exchange>)

  function Exchanges(symbols: seq<Exchange>): seq<string> {
    if symbols == [] then [] else [symbols[0].exchange] + Exchanges(symbols[1..])
  }

  /** What the containers guarantee: sets and map keys in their order, each once. */
  ghost predicate Valid(config: Config) {
    && IsOrdered(config.accounts)
    && IsOrdered(Exchanges(config.symbols))
    && forall e :: 0 <= e < |config.symbols| ==> IsOrdered(config.symbols[e].regexes)
  }

  /** One call of the framework's handler. */
  datatype Call =
    | SettingsCall(settings: Settings)
    | AccountCall(regex: string)
    | SymbolCall(regex: string, exchange: string)

  function AccountCalls(accounts: seq<string>): seq<Call> {
    if accounts == [] then [] else [AccountCall(accounts[0])] + AccountCalls(accounts[1..])
  }

  function ExchangeCalls(exchange: string, regexes: seq<string>): seq<Call> {
    if regexes == [] then [] else [SymbolCall(regexes[0], exchange)] + ExchangeCalls(exchange, regexes[1..])
  }

  function SymbolCalls(symbols: seq<Exchange>): seq<Call> {
    if symbols == [] then []
    else ExchangeCalls(symbols[0].exchange, symbols[0].regexes) + SymbolCalls(symbols[1..])
  }

  /** The calls `Config::dispatch` makes, in order. */
  function Dispatched(config: Config): seq<Call> {
    [SettingsCall(config.settings)] + AccountCalls(config.accounts) + SymbolCalls(config.symbols)
  }

  function RegexCount(symbols: seq<Exchange>): nat {
    if symbols == [] then 0 else |symbols[0].regexes| + RegexCount(symbols[1..])
  }

  lemma {:induction false} AccountCallsAt(accounts: seq<string>)
    ensures |AccountCalls(accounts)| == |accounts|
    ensures forall i :: 0 <= i < |accounts| ==> AccountCalls(accounts)[i] == AccountCall(accounts[i])
  {
    if accounts != [] {
      AccountCallsAt(accounts[1..]);
    }
  }

  lemma {:induction false} ExchangeCallsAt(exchange: string, regexes: seq<string>)
    ensures |ExchangeCalls(exchange, regexes)| == |regexes|
    ensures forall i :: 0 <= i < |regexes| ==> ExchangeCalls(exchange, regexes)[i] == SymbolCall(regexes[i], exchange)
  {
    if regexes != [] {
      ExchangeCallsAt(exchange, regexes[1..]);
    }
  }

  lemma {:induction false} SymbolCallsCount(symbols: seq<Exchange>)
    ensures |SymbolCalls(symbols)| == RegexCount(symbols)
  {
    if symbols != [] {
      ExchangeCallsAt(symbols[0].exchange, symbols[0].regexes);
      SymbolCallsCount(symbols[1..]);
    }
  }

  /**
   * The settings come first and only there, then one Account per account
   * regex in set order; the handler is called 1 + |accounts| + the number of
   * symbol regexes times.
   */
  lemma DispatchedShape(config: Config)
    ensures |Dispatched(config)| == 1 + |config.accounts| + RegexCount(config.symbols)
    ensures Dispatched(config)[0] == SettingsCall(config.settings)
    ensures forall i :: 0 <= i < |config.accounts| ==> Dispatched(config)[1 + i] == AccountCall(config.accounts[i])
    ensures forall i :: 1 <= i < |Dispatched(config)| ==> !Dispatched(config)[i].SettingsCall?
  {
    AccountCallsAt(config.accounts);
    SymbolCallsCount(config.symbols);
    var rest := AccountCalls(config.accounts) + SymbolCalls(config.symbols);
    assert Dispatched(config) == [SettingsCall(config.settings)] + rest;
    forall i | 1 <= i < |Dispatched(config)|
      ensures !Dispatched(config)[i].SettingsCall?
    {
      NoSettingsIn(config.accounts, config.symbols, i - 1);
    }
  }

  lemma NoSettingsIn(accounts: seq<string>, symbols: seq<Exchange>, i: nat)
    requires i < |AccountCalls(accounts) + SymbolCalls(symbols)|
    ensures !(AccountCalls(accounts) + SymbolCalls(symbols))[i].SettingsCall?
  {
    AccountCallsAt(accounts);
    if i >= |AccountCalls(accounts)| {
      SymbolCallsAreSymbols(symbols);
      assert (AccountCalls(accounts) + SymbolCalls(symbols))[i] in SymbolCalls(symbols);
    }
  }

  /** Every call after the accounts is a Symbol call, for a regex listed under the exchange it carries. */
  lemma {:induction false} SymbolCallsAreSymbols(symbols: seq<Exchange>)
    ensures forall c :: c in SymbolCalls(symbols) ==>
      c.SymbolCall? && exists e :: 0 <= e < |symbols| && symbols[e].exchange == c.exchange && c.regex in symbols[e].regexes
  {
    if symbols != [] {
      SymbolCallsAreSymbols(symbols[1..]);
      ExchangeCallsAt(symbols[0].exchange, symbols[0].regexes);
      forall c | c in SymbolCalls(symbols)
        ensures c.SymbolCall? && exists e :: 0 <= e < |symbols| && symbols[e].exchange == c.exchange && c.regex in symbols[e].regexes
      {
        if c in ExchangeCalls(symbols[0].exchange, symbols[0].regexes) {
          var i :| 0 <= i < |symbols[0].regexes| && ExchangeCalls(symbols[0].exchange, symbols[0].regexes)[i] == c;
          assert symbols[0].exchange == c.exchange && c.regex in symbols[0].regexes;
        } else {
          var e :| 0 <= e < |symbols[1..]| && symbols[1..][e].exchange == c.exchange && c.regex in symbols[1..][e].regexes;
          assert symbols[e + 1] == symbols[1..][e];
        }
      }
    }
  }

  /** Conversely, every (exchange, regex) of the map yields its Symbol call. */
  lemma {:induction false} EverySymbolDispatched(symbols: seq<Exchange>, e: nat, regex: string)
    requires e < |symbols| && regex in symbols[e].regexes
    ensures SymbolCall(regex, symbols[e].exchange) in SymbolCalls(symbols)
  {
    if e == 0 {
      ExchangeCallsAt(symbols[0].exchange, symbols[0].regexes);
      var i :| 0 <= i < |symbols[0].regexes| && symbols[0].regexes[i] == regex;
      assert ExchangeCalls(symbols[0].exchange, symbols[0].regexes)[i] == SymbolCall(regex, symbols[e].exchange);
    } else {
      EverySymbolDispatched(symbols[1..], e - 1, regex);
    }
  }

  /** `Config::dispatch`: the handler's calls, from the nested loops over the containers. */
  method Dispatch(config: Config) returns (calls: seq<Call>)
    ensures calls == Dispatched(config)
  {
    calls := [SettingsCall(config.settings)];
    for a := 0 to |config.accounts|
      invariant calls == [SettingsCall(config.settings)] + AccountCalls(config.accounts[..a])
    {
      AccountCallsSnoc(config.accounts[..a], config.accounts[a]);
      assert config.accounts[..a + 1] == config.accounts[..a] + [config.accounts[a]];
      calls := calls + [AccountCall(config.accounts[a])];
    }
    assert config.accounts[..|config.accounts|] == config.accounts;
    ghost var head := calls;
    for e := 0 to |config.symbols|
      invariant calls == head + SymbolCalls(config.symbols[..e])
    {
      var exchangeCalls := DispatchExchange(config.symbols[e].exchange, config.symbols[e].regexes);
      calls := calls + exchangeCalls;
      SymbolCallsSnoc(config.symbols[..e], config.symbols[e]);
      assert config.symbols[..e + 1] == config.symbols[..e] + [config.symbols[e]];
    }
    assert config.symbols[..|config.symbols|] == config.symbols;
  }

  /** The inner loop of `Config::dispatch`: one Symbol per regex of one exchange. */
  method DispatchExchange(exchange: string, regexes: seq<string>) returns (calls: seq<Call>)
    ensures calls == ExchangeCalls(exchange, regexes)
  {
    calls := [];
    for r := 0 to |regexes|
      invariant calls == ExchangeCalls(exchange, regexes[..r])
    {
      ExchangeCallsSnoc(exchange, regexes[..r], regexes[r]);
      assert regexes[..r + 1] == regexes[..r] + [regexes[r]];
      calls := calls + [SymbolCall(regexes[r], exchange)];
    }
    assert regexes[..|regexes|] == regexes;
  }

  lemma {:induction false} AccountCallsSnoc(accounts: seq<string>, regex: string)
    ensures AccountCalls(accounts + [regex]) == AccountCalls(accounts) + [AccountCall(regex)]
  {
    if accounts == [] {
      assert [] + [regex] == [regex];
    } else {
      assert (accounts + [regex])[1..] == accounts[1..] + [regex];
      AccountCallsSnoc(accounts[1..], regex);
    }
  }

  lemma {:induction false} ExchangeCallsSnoc(exchange: string, regexes: seq<string>, regex: string)
    ensures ExchangeCalls(exchange, regexes + [regex]) == ExchangeCalls(exchange, regexes) + [SymbolCall(regex, exchange)]
  {
    if regexes == [] {
      assert [] + [regex] == [regex];
    } else {
      assert (regexes + [regex])[1..] == regexes[1..] + [regex];
      ExchangeCallsSnoc(exchange, regexes[1..], regex);
    }
  }

  lemma {:induction false} SymbolCallsSnoc(symbols: seq<Exchange>, last: Exchange)
    ensures SymbolCalls(symbols + [last]) == SymbolCalls(symbols) + ExchangeCalls(last.exchange, last.regexes)
  {
    if symbols == [] {
      assert [] + [last] == [last];
    } else {
      assert (symbols + [last])[1..] == symbols[1..] + [last];
      SymbolCallsSnoc(symbols[1..], last);
    }
  }

  /** Under the containers' ordering the Account calls are pairwise different: each account regex once. */
  lemma AccountsOnceEach(config: Config, i: nat, j: nat)
    requires Valid(config)
    requires 1 <= i <= |config.accounts| && 1 <= j <= |config.accounts| && i != j
    ensures |Dispatched(config)| == 1 + |config.accounts| + RegexCount(config.symbols)
    ensures Dispatched(config)[i] != Dispatched(config)[j]
  {
    DispatchedShape(config);
    OrderedIsDistinct(config.accounts, i - 1, j - 1);
  }

  /* `set_flags` */

  const NUL: char := '\0'

  /** The flags a Python dict holds, in its iteration order. */
  datatype Flag = Flag(key: string, value: string)

  /** The part of the command line one flag contributes: `--key`, NUL, the value, NUL. */
  function Entry(flag: Flag): string {
    "--" + flag.key + [NUL] + flag.value + [NUL]
  }

  /** The command line `set_flags` builds: the empty program name, then each flag's entry. */
  function CommandLine(flags: seq<Flag>): (buffer: string)
    ensures |buffer| >= 1 && buffer[0] == NUL && buffer[|buffer| - 1] == NUL
  {
    if flags == [] then [NUL] else CommandLine(flags[..|flags| - 1]) + Entry(flags[|flags| - 1])
  }

  /** Where a new argument starts: right after the program name, or right after a NUL. */
  predicate StartsArgument(buffer: string, i: nat)
    requires 1 <= i <= |buffer|
  {
    i == 1 || buffer[i - 1] == NUL
  }

  /** The start of every argument after the program name, among the first `n` characters. */
  function ArgumentStarts(buffer: string, n: nat): seq<nat>
    requires n <= |buffer|
  {
    if n <= 1 then [] else ArgumentStarts(buffer, n - 1) + (if StartsArgument(buffer, n - 1) then [n - 1] else [])
  }

  /** One turn of `set_flags`' first loop: the flag's characters pushed one by one. */
  method AppendEntry(buffer: string, flag: Flag) returns (extended: string)
    ensures extended == buffer + Entry(flag)
  {
    extended := buffer + ['-'];
    extended := extended + ['-'];
    for c := 0 to |flag.key|
      invariant extended == buffer + "--" + flag.key[..c]
    {
      extended := extended + [flag.key[c]];
    }
    extended := extended + [NUL];
    for c := 0 to |flag.value|
      invariant extended == buffer + "--" + flag.key + [NUL] + flag.value[..c]
    {
      extended := extended + [flag.value[c]];
    }
    extended := extended + [NUL];
  }

  /** `set_flags`' first loop: the command line, flag by flag. */
  method BuildBuffer(flags: seq<Flag>) returns (buffer: string)
    ensures buffer == CommandLine(flags)
  {
    buffer := [NUL];
    for f := 0 to |flags|
      invariant buffer == CommandLine(flags[..f])
    {
      buffer := AppendEntry(buffer, flags[f]);
      assert flags[..f + 1][..f] == flags[..f];
    }
    assert flags[..|flags|] == flags;
  }

  /** `set_flags`' second loop: `args` points at the program name and at each argument start. */
  method BuildArgs(buffer: string) returns (args: seq<nat>)
    requires |buffer| >= 1
    ensures args == [0] + ArgumentStarts(buffer, |buffer|)
  {
    args := [0];
    var insert := true;
    for i := 1 to |buffer|
      invariant args == [0] + ArgumentStarts(buffer, i)
      invariant insert == StartsArgument(buffer, i)
    {
      if insert {
        args := args + [i];
        insert := false;
      }
      if buffer[i] == NUL {
        insert := true;
      }
    }
  }

  /** `set_flags`, up to the hand-over to the flags parser. */
  method SetFlags(flags: seq<Flag>) returns (buffer: string, args: seq<nat>)
    ensures buffer == CommandLine(flags)
    ensures args == [0] + ArgumentStarts(buffer, |buffer|)
  {
    buffer := BuildBuffer(flags);
    args := BuildArgs(buffer);
  }

  /** A flag a C string can carry whole: no NUL in its key or value. */
  predicate NulFree(flag: Flag) {
    NUL !in flag.key && NUL !in flag.value
  }

  /** Every flag NUL-free. */
  predicate AllNulFree(flags: seq<Flag>) {
    flags == [] || (AllNulFree(flags[..|flags| - 1]) && NulFree(flags[|flags| - 1]))
  }

  /** The characters of one entry, by position. */
  lemma EntryAt(flag: Flag, i: nat)
    requires i < |Entry(flag)|
    ensures |Entry(flag)| == |flag.key| + |flag.value| + 4
    ensures i < 2 ==> Entry(flag)[i] == '-'
    ensures 2 <= i < 2 + |flag.key| ==> Entry(flag)[i] == flag.key[i - 2]
    ensures i == 2 + |flag.key| ==> Entry(flag)[i] == NUL
    ensures 3 + |flag.key| <= i < 3 + |flag.key| + |flag.value| ==> Entry(flag)[i] == flag.value[i - 3 - |flag.key|]
    ensures i == |Entry(flag)| - 1 ==> Entry(flag)[i] == NUL
  {
  }

  /** The argument starts among the first `n` characters do not depend on what follows them. */
  lemma {:induction false} StartsOfPrefix(buffer: string, more: string, n: nat)
    requires n <= |buffer|
    ensures ArgumentStarts(buffer + more, n) == ArgumentStarts(buffer, n)
  {
    if n > 1 {
      StartsOfPrefix(buffer, more, n - 1);
      assert (buffer + more)[n - 2] == buffer[n - 2];
    }
  }

  /** Positions whose preceding characters hold no NUL start no argument. */
  lemma {:induction false} NoStartsBetween(buffer: string, lo: nat, hi: nat)
    requires 2 <= lo <= hi <= |buffer|
    requires forall j :: lo - 1 <= j < hi - 1 ==> buffer[j] != NUL
    ensures ArgumentStarts(buffer, hi) == ArgumentStarts(buffer, lo)
    decreases hi
  {
    if lo < hi {
      NoStartsBetween(buffer, lo, hi - 1);
      assert !StartsArgument(buffer, hi - 1);
    }
  }

  /** After a NUL, a flag's entry starts exactly two arguments: `--key` and the value. */
  lemma StartsOfEntry(buffer: string, flag: Flag)
    requires |buffer| >= 1 && buffer[|buffer| - 1] == NUL && NulFree(flag)
    ensures ArgumentStarts(buffer + Entry(flag), |buffer + Entry(flag)|)
      == ArgumentStarts(buffer, |buffer|) + [|buffer|, |buffer| + |flag.key| + 3]
  {
    var whole := buffer + Entry(flag);
    var keyEnd := |buffer| + |flag.key| + 2;
    var valueStart := keyEnd + 1;
    EntryAt(flag, 0);
    StartsOfPrefix(buffer, Entry(flag), |buffer|);
    assert ArgumentStarts(whole, |buffer| + 1) == ArgumentStarts(buffer, |buffer|) + [|buffer|];
    forall j | |buffer| <= j < keyEnd
      ensures whole[j] != NUL
    {
      EntryAt(flag, j - |buffer|);
      if j >= |buffer| + 2 {
        assert flag.key[j - |buffer| - 2] in flag.key;
      }
    }
    NoStartsBetween(whole, |buffer| + 1, valueStart);
    EntryAt(flag, keyEnd - |buffer|);
    assert ArgumentStarts(whole, valueStart + 1) == ArgumentStarts(whole, valueStart) + [valueStart];
    forall j | valueStart <= j < |whole| - 1
      ensures whole[j] != NUL
    {
      EntryAt(flag, j - |buffer|);
      assert flag.value[j - valueStart] in flag.value;
    }
    NoStartsBetween(whole, valueStart + 1, |whole|);
  }

  /** Where each flag's two arguments start: right after the entries before it, and after its key. */
  function FlagArgumentStarts(flags: seq<Flag>): (starts: seq<nat>)
    ensures |starts| == 2 * |flags|
  {
    if flags == [] then []
    else
      var before := flags[..|flags| - 1];
      FlagArgumentStarts(before)
        + [|CommandLine(before)|, |CommandLine(before)| + |flags[|flags| - 1].key| + 3]
  }

  /**
   * With NUL-free keys and values, `args` is the program name followed by two
   * arguments per flag, in dict order: 1 + 2 * |flags| entries in all.
   */
  lemma {:induction false} ArgumentsOfFlags(flags: seq<Flag>)
    requires AllNulFree(flags)
    ensures ArgumentStarts(CommandLine(flags), |CommandLine(flags)|) == FlagArgumentStarts(flags)
    ensures |[0] + ArgumentStarts(CommandLine(flags), |CommandLine(flags)|)| == 1 + 2 * |flags|
  {
    if flags != [] {
      var before := flags[..|flags| - 1];
      var last := flags[|flags| - 1];
      ArgumentsOfFlags(before);
      assert CommandLine(flags) == CommandLine(before) + Entry(last);
      StartsOfEntry(CommandLine(before), last);
    }
  }

  /** The command line of the first flags is a prefix of the whole one. */
  lemma {:induction false} CommandLinePrefix(flags: seq<Flag>, j: nat)
    requires j <= |flags|
    ensures CommandLine(flags[..j]) <= CommandLine(flags)
    decreases |flags|
  {
    if j < |flags| {
      var before := flags[..|flags| - 1];
      assert before[..j] == flags[..j];
      CommandLinePrefix(before, j);
    } else {
      assert flags[..j] == flags;
    }
  }

  /** The j-th flag's entry sits right after the command line of the flags before it. */
  lemma EntryPlacement(flags: seq<Flag>, j: nat)
    requires j < |flags|
    ensures var start := |CommandLine(flags[..j])|;
      start + |Entry(flags[j])| <= |CommandLine(flags)|
      && CommandLine(flags)[start..start + |Entry(flags[j])|] == Entry(flags[j])
  {
    CommandLinePrefix(flags, j + 1);
    assert flags[..j + 1][..j] == flags[..j];
    assert CommandLine(flags[..j + 1]) == CommandLine(flags[..j]) + Entry(flags[j]);
  }

  /** With no flags the command line is one NUL and `args` holds only the program name. */
  lemma NoFlags()
    ensures CommandLine([]) == [NUL]
    ensures [0] + ArgumentStarts(CommandLine([]), |CommandLine([])|) == [0]
  {
  }
}
