/**
 * The URL builders and command lists of server/server.js: the channel-launch
 * helpers (lines 677-743), the searchroku and searchplex lists that wrap
 * typed text between a fixed prefix and suffix (lines 365-440), and the
 * dispatch of an incoming request path through the handler table (lines
 * 666-673).
 */
module Commands {
  import opened Wrappers
  import opened Steps
  import opened Keystrokes
  import opened Sequencer
  import opened Seqs
  import Discovery

  /** The fourteen one-call helpers, each `address + <command>`. */
  datatype Shortcut =
    | Amazon | Pandora | Hulu | NowTV | Plex | Home | Tv
    | FourK | Hbo | Fx | YouTube | Netflix | Shudder | IPlayer

  /** The ECP command path each helper appends to the address. */
  function Command(s: Shortcut): string {
    match s
    case Amazon => "launch/13"
    case Pandora => "launch/28"
    case Hulu => "launch/2285"
    case NowTV => "launch/20242"
    case Plex => "launch/13535"
    case Home => "keypress/home"
    case Tv => "launch/tvinput.dtv"
    case FourK => "launch/69091"
    case Hbo => "launch/8378"
    case Fx => "launch/47389"
    case YouTube => "launch/837"
    case Netflix => "launch/12"
    case Shudder => "launch/59997"
    case IPlayer => "launch/11703"
  }

  /** amazon(address) … iplayer(address). */
  function ShortcutUrl(base: string, s: Shortcut): (r: string)
    ensures |base| < |r| && r[..|base|] == base
    ensures ShortcutOf(r[|base|..]) == Some(s)
  {
    CommandNamesShortcut(s);
    assert (base + Command(s))[|base|..] == Command(s);
    base + Command(s)
  }

  /** The helper whose command path `command` is, if any. */
  function ShortcutOf(command: string): Option<Shortcut> {
    if command == "launch/13" then Some(Amazon)
    else if command == "launch/28" then Some(Pandora)
    else if command == "launch/2285" then Some(Hulu)
    else if command == "launch/20242" then Some(NowTV)
    else if command == "launch/13535" then Some(Plex)
    else if command == "keypress/home" then Some(Home)
    else if command == "launch/tvinput.dtv" then Some(Tv)
    else if command == "launch/69091" then Some(FourK)
    else if command == "launch/8378" then Some(Hbo)
    else if command == "launch/47389" then Some(Fx)
    else if command == "launch/837" then Some(YouTube)
    else if command == "launch/12" then Some(Netflix)
    else if command == "launch/59997" then Some(Shudder)
    else if command == "launch/11703" then Some(IPlayer)
    else None
  }

  /** Reads back which helper built `url` against `base`, if any. */
  function ParseShortcut(base: string, url: string): Option<Shortcut> {
    if |base| <= |url| && url[..|base|] == base then ShortcutOf(url[|base|..]) else None
  }

  /** Every helper's URL is the address followed by its own command, which names it alone. */
  lemma ShortcutRoundTrip(base: string, s: Shortcut)
    ensures ShortcutUrl(base, s)[..|base|] == base
    ensures ParseShortcut(base, ShortcutUrl(base, s)) == Some(s)
  {
    var url := ShortcutUrl(base, s);
    assert url[..|base|] == base;
    assert url[|base|..] == Command(s);
    CommandNamesShortcut(s);
  }

  /** Each command path reads back to the helper that sends it. */
  lemma CommandNamesShortcut(s: Shortcut)
    ensures ShortcutOf(Command(s)) == Some(s)
  {
    match s
    case Amazon =>
    case Pandora =>
    case Hulu =>
    case NowTV =>
    case Plex =>
    case Home =>
    case Tv =>
    case FourK =>
    case Hbo =>
    case Fx =>
    case YouTube =>
    case Netflix =>
    case Shudder =>
    case IPlayer =>
  }

  /** No two helpers send the same command to the same address. */
  lemma ShortcutUrlInjective(base: string, s: Shortcut, t: Shortcut)
    requires ShortcutUrl(base, s) == ShortcutUrl(base, t)
    ensures s == t
  {
    ShortcutRoundTrip(base, s);
    ShortcutRoundTrip(base, t);
  }

  /** `[].concat(prefix, createTypeSequence(text), suffix)`. */
  function Bracketed(base: string, prefix: seq<Step>, text: string, suffix: seq<Step>): (r: seq<Step>)
    ensures |r| == |prefix| + 2 * |text| + |suffix|
    ensures AllKnown(prefix) && AllKnown(suffix) ==> AllKnown(r)
  {
    var typed := TypeSequence(base, text);
    if AllKnown(prefix) && AllKnown(suffix) then
      AllKnownAppend3(prefix, typed, suffix);
      prefix + typed + suffix
    else
      prefix + typed + suffix
  }

  /**
   * A bracketed list keeps its three parts in order and intact: the prefix
   * first, then two steps per character from which the typed text reads back
   * unchanged, then the suffix.
   */
  lemma BracketedParts(base: string, prefix: seq<Step>, text: string, suffix: seq<Step>)
    ensures var r := Bracketed(base, prefix, text, suffix);
      |r| == |prefix| + 2 * |text| + |suffix| &&
      r[..|prefix|] == prefix &&
      r[|prefix|..|prefix| + 2 * |text|] == TypeSequence(base, text) &&
      TypedText(base, r[|prefix|..|prefix| + 2 * |text|]) == Some(text) &&
      r[|prefix| + 2 * |text|..] == suffix
  {
    var typed := TypeSequence(base, text);
    var r := Bracketed(base, prefix, text, suffix);
    var n := |prefix|;
    var m := |typed|;
    assert m == 2 * |text|;
    assert r == prefix + typed + suffix;
    assert r[..n] == prefix;
    assert r[n..n + m] == typed;
    assert r[n + m..] == suffix;
    TypeSequenceRoundTrip(base, text);
  }

  /**
   * Running a bracketed list of strings and numbers performs the prefix, then
   * the keystrokes, then the suffix, then the callback.
   */
  lemma BracketedRun(base: string, prefix: seq<Step>, text: string, suffix: seq<Step>, hasCallback: bool)
    requires AllKnown(prefix) && AllKnown(suffix)
    ensures Trace(Bracketed(base, prefix, text, suffix), hasCallback) ==
      EffectsOf(prefix) + EffectsOf(TypeSequence(base, text)) + EffectsOf(suffix) + CallbackIf(hasCallback)
  {
    var typed := TypeSequence(base, text);
    var tail := typed + suffix;
    var p, t, u, c := EffectsOf(prefix), EffectsOf(typed), EffectsOf(suffix), CallbackIf(hasCallback);
    TraceOfKnown(suffix, hasCallback);
    TraceAppend(typed, suffix, hasCallback);
    assert Trace(tail, hasCallback) == t + (u + c);
    Assoc(prefix, typed, suffix);
    assert Bracketed(base, prefix, text, suffix) == prefix + tail;
    TraceAppend(prefix, tail, hasCallback);
    assert Trace(prefix + tail, hasCallback) == p + (t + (u + c));
    Assoc4(p, t, u, c);
  }


  /** The searchroku list before the text: wake, home, five downs, select. */
  function SearchRokuPrefix(base: string): (r: seq<Step>)
    ensures |r| == 15 && AllKnown(r)
  {
    [ Action(base + "keypress/home"), Action(base + "keypress/home"), Delay(2200),
      Action(base + "keypress/down"), Delay(150),
      Action(base + "keypress/down"), Delay(150),
      Action(base + "keypress/down"), Delay(150),
      Action(base + "keypress/down"), Delay(150),
      Action(base + "keypress/down"), Delay(150),
      Action(base + "keypress/select"), Delay(800) ]
  }

  /** The searchroku list after the text: six rights, then select twice. */
  function SearchRokuSuffix(base: string): (r: seq<Step>)
    ensures |r| == 16 && AllKnown(r)
  {
    [ Action(base + "keypress/right"), Delay(150),
      Action(base + "keypress/right"), Delay(150),
      Action(base + "keypress/right"), Delay(150),
      Action(base + "keypress/right"), Delay(150),
      Action(base + "keypress/right"), Delay(150),
      Action(base + "keypress/right"), Delay(500),
      Action(base + "keypress/select"), Delay(1700),
      Action(base + "keypress/select"), Delay(4000) ]
  }

  /** The searchplex list before the text: home twice, open Plex, up, select. */
  function SearchPlexPrefix(base: string): (r: seq<Step>)
    ensures |r| == 9 && AllKnown(r)
  {
    [ Action(base + "keypress/home"), Action(base + "keypress/home"), Delay(2000),
      Action(base + "launch/13535"), Delay(7250),
      Action(base + "keypress/up"), Delay(250),
      Action(base + "keypress/select"), Delay(250) ]
  }

  /** The searchplex list after the text: six rights, then select twice. */
  function SearchPlexSuffix(base: string): (r: seq<Step>)
    ensures |r| == 16 && AllKnown(r)
  {
    [ Action(base + "keypress/right"), Delay(250),
      Action(base + "keypress/right"), Delay(250),
      Action(base + "keypress/right"), Delay(250),
      Action(base + "keypress/right"), Delay(250),
      Action(base + "keypress/right"), Delay(1500),
      Action(base + "keypress/right"), Delay(1200),
      Action(base + "keypress/select"), Delay(750),
      Action(base + "keypress/select"), Delay(750) ]
  }

  /** The downtwo list: down, 100 ms, down, 100 ms. */
  function DownTwoSequence(base: string): (r: seq<Step>)
    ensures |r| == 4 && AllKnown(r)
  {
    [ Action(base + "keypress/down"), Delay(100), Action(base + "keypress/down"), Delay(100) ]
  }

  /** What the handler registered for a path does. */
  datatype Route =
    | DownTwo                     // postSequence on a literal list, no callback
    | TypeText(hasCallback: bool) // /roku/type (empty callback) and /roku/search (none)
    | SearchRoku                  // bracketed search, no callback
    | SearchPlex                  // bracketed search, no callback
    | Press(key: string)          // a single post(address + "keypress/" + key), no sequence
    | Open(shortcut: Shortcut)    // postSequence([helper(address)], function(){})

  /** The work a request leaves running after its reply has been sent. */
  datatype Work =
    | Idle
    | Single(url: string)
    | Run(steps: seq<Step>, hasCallback: bool)

  /** The body passed to `response.end`, and the work started. */
  datatype Reply = Reply(body: string, work: Work)

  /** The work a route starts, with the address rendered as `base` and the (lower-cased) request body `text`. */
  function RouteWork(route: Route, base: string, text: string): (w: Work)
    ensures w != Idle
  {
    match route
    case DownTwo => Run(DownTwoSequence(base), false)
    case TypeText(hasCallback) => Run(TypeSequence(base, text), hasCallback)
    case SearchRoku => Run(Bracketed(base, SearchRokuPrefix(base), text, SearchRokuSuffix(base)), false)
    case SearchPlex => Run(Bracketed(base, SearchPlexPrefix(base), text, SearchPlexSuffix(base)), false)
    case Press(key) => Single(base + "keypress/" + key)
    case Open(s) => Run([Action(ShortcutUrl(base, s))], true)
  }

  /**
   * handleRequest: a path in the table runs its handler and is answered "OK"
   * before the work finishes; any other path is answered with an empty body
   * and starts nothing.
   */
  function HandleRequest(handlers: map<string, Route>, path: string, address: Discovery.Address, text: string): (r: Reply)
    ensures r.body == "OK" <==> path in handlers
    ensures r.work == Idle <==> path !in handlers
    ensures path !in handlers ==> r == Reply("", Idle)
    ensures path in handlers ==> r.work == RouteWork(handlers[path], Discovery.Text(address), text)
  {
    if path in handlers then Reply("OK", RouteWork(handlers[path], Discovery.Text(address), text))
    else Reply("", Idle)
  }

  /**
   * No route can leave its run stuck on an element of unknown type: given
   * every response, each list a handler starts finishes, and a callback it
   * was given fires exactly once, last.
   */
  lemma RouteRunsFinish(route: Route, base: string, text: string)
    ensures RouteWork(route, base, text).Run? ==>
      var w := RouteWork(route, base, text);
      AllKnown(w.steps) &&
      Trace(w.steps, w.hasCallback) == EffectsOf(w.steps) + CallbackIf(w.hasCallback)
  {
    var w := RouteWork(route, base, text);
    match route
    case SearchRoku =>
      AllKnownAppend3(SearchRokuPrefix(base), TypeSequence(base, text), SearchRokuSuffix(base));
      TraceOfKnown(w.steps, false);
    case SearchPlex =>
      AllKnownAppend3(SearchPlexPrefix(base), TypeSequence(base, text), SearchPlexSuffix(base));
      TraceOfKnown(w.steps, false);
    case Press(_) =>
    case _ =>
      TraceOfKnown(w.steps, w.hasCallback);
  }

  /** Three lists of strings and numbers, joined, are still strings and numbers. */
  lemma AllKnownAppend3(a: seq<Step>, b: seq<Step>, c: seq<Step>)
    requires AllKnown(a) && AllKnown(b) && AllKnown(c)
    ensures AllKnown(a + b + c)
  {
    var r := a + b + c;
    forall i | 0 <= i < |r| ensures Known(r[i]) {
      if i < |a| { assert r[i] == a[i]; }
      else if i < |a| + |b| { assert r[i] == b[i - |a|]; }
      else { assert r[i] == c[i - |a| - |b|]; }
    }
  }

  /** Every handler path the server registers starts with this. */
  const RoutePrefix: string := "/roku/"

  /** Part of the handler table: the routes whose behaviour this model covers. */
  const Handlers: map<string, Route> := map[
    "/roku/downtwo" := DownTwo,
    "/roku/type" := TypeText(true),
    "/roku/search" := TypeText(false),
    "/roku/searchroku" := SearchRoku,
    "/roku/searchplex" := SearchPlex,
    "/roku/playpause" := Press("Play"),
    "/roku/power" := Press("Power"),
    "/roku/rewind" := Press("rev"),
    "/roku/fastforward" := Press("fwd"),
    "/roku/up" := Press("up"),
    "/roku/down" := Press("down"),
    "/roku/back" := Press("back"),
    "/roku/left" := Press("left"),
    "/roku/instantreplay" := Press("instantreplay"),
    "/roku/right" := Press("right"),
    "/roku/select" := Press("select"),
    "/roku/amazon" := Open(Amazon),
    "/roku/plex" := Open(Plex),
    "/roku/pandora" := Open(Pandora),
    "/roku/hulu" := Open(Hulu),
    "/roku/NowTV" := Open(NowTV),
    "/roku/home" := Open(Home),
    "/roku/tv" := Open(Tv),
    "/roku/fourk" := Open(FourK),
    "/roku/hbo" := Open(Hbo),
    "/roku/youtube" := Open(YouTube),
    "/roku/netflix" := Open(Netflix),
    "/roku/shudder" := Open(Shudder),
    "/roku/iplayer" := Open(IPlayer),
    "/roku/fx" := Open(Fx)
  ]

  /** Every path in the table lies under `/roku/`. */
  lemma HandlerPaths()
    ensures forall p :: p in Handlers ==> RoutePrefix < p
  {
  }

  /**
   * A searchroku request is answered "OK" and runs 31 fixed steps around two
   * steps per character of the text, which reads back unchanged, and it
   * calls no callback.
   */
  lemma SearchRokuRequest(address: Discovery.Address, text: string)
    ensures var base := Discovery.Text(address);
      var r := HandleRequest(Handlers, "/roku/searchroku", address, text);
      r.body == "OK" && r.work.Run? && !r.work.hasCallback &&
      |r.work.steps| == 31 + 2 * |text| &&
      TypedText(base, r.work.steps[15..15 + 2 * |text|]) == Some(text) &&
      Trace(r.work.steps, false) ==
        EffectsOf(SearchRokuPrefix(base)) + EffectsOf(TypeSequence(base, text)) + EffectsOf(SearchRokuSuffix(base))
  {
    var base := Discovery.Text(address);
    assert "/roku/searchroku" in Handlers && Handlers["/roku/searchroku"] == SearchRoku;
    var prefix, suffix := SearchRokuPrefix(base), SearchRokuSuffix(base);
    var steps := Bracketed(base, prefix, text, suffix);
    assert HandleRequest(Handlers, "/roku/searchroku", address, text) == Reply("OK", Run(steps, false));
    BracketedParts(base, prefix, text, suffix);
    BracketedRun(base, prefix, text, suffix, false);
    var effects := EffectsOf(prefix) + EffectsOf(TypeSequence(base, text)) + EffectsOf(suffix);
    assert effects + CallbackIf(false) == effects;
  }

  /**
   * A type request is answered "OK" and starts a run that posts one
   * keystroke per character, from which the text reads back unchanged, and
   * then calls its (empty) callback exactly once, last.
   */
  lemma TypeRequest(address: Discovery.Address, text: string)
    ensures var base := Discovery.Text(address);
      var r := HandleRequest(Handlers, "/roku/type", address, text);
      r.body == "OK" && r.work.Run? && r.work.hasCallback &&
      TypedText(base, r.work.steps) == Some(text) &&
      |Trace(r.work.steps, true)| == 2 * |text| + 1 &&
      multiset(Trace(r.work.steps, true))[Callback] == 1 &&
      Trace(r.work.steps, true)[2 * |text|] == Callback
  {
    var base := Discovery.Text(address);
    assert "/roku/type" in Handlers && Handlers["/roku/type"] == TypeText(true);
    TypeSequenceRoundTrip(base, text);
    CallbackExactlyOnce(TypeSequence(base, text), true);
  }
}
