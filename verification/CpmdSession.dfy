// CPMDPot: the life of the engine session an instance holds, across loading,
// configuring and replacing the engine library.
module CpmdSession {
  import opened Wrappers

  // The entry points a library has.
  datatype Symbols = Symbols(energyGradient: bool, setParams: bool, sessionCreate: bool, sessionDestroy: bool,
                             resultSize: bool, calculate: bool, features: bool, selectOrbitals: bool)

  const NO_SYMBOLS := Symbols(false, false, false, false, false, false, false, false)

  datatype Engine = Engine(id: nat, symbols: Symbols)

  predicate OneShot(s: Symbols) {
    s.energyGradient && s.setParams
  }

  predicate SessionAbi(s: Symbols) {
    s.sessionCreate && s.sessionDestroy && s.resultSize && s.calculate
  }

  // What a caller passes: the serialized parameters, and the engine path they
  // contain.
  datatype Params = Params(words: seq<nat>, enginePath: string)

  // The answers of the world during one call: which library a path opens,
  // whether the calculators accept the engine's adopter, whether the engine
  // creates a session and takes parameters.
  datatype Answers = Answers(open: string -> Option<Engine>, accepts: bool, creates: bool, takes: bool)

  // The answers of the engine during one force call: whether it sizes the
  // input, takes the orbital key, and returns a result that can be used.
  datatype Engagement = Engagement(sizes: bool, selects: bool, delivers: bool)

  // ---- What an instance does to the engines ----

  datatype Event =
    | Opened(engine: Engine)
    | Closed(engine: Engine)
    | Created(engine: Engine, session: nat, params: seq<nat>)
    | Destroyed(engine: Engine, session: nat)
    | Selected(engine: Engine, session: nat, key: int)
    | Calculated(engine: Engine, session: nat, params: seq<nat>)
    | CalculatedOnce(engine: Engine, params: seq<nat>)

  datatype Session = Session(engine: Engine, params: seq<nat>)

  // The rules an engine sets: one library at a time; a session is created,
  // used and destroyed by an open library, the one that created it; no
  // library is closed while it has a session.
  datatype Ledger = Ledger(open: Option<Engine>, live: map<nat, Session>, used: set<nat>)

  predicate Allowed(l: Ledger, e: Event) {
    match e
    case Opened(_) => l.open.None?
    case Closed(g) => l.open == Some(g) && l.live == map[]
    case Created(g, s, _) => l.open == Some(g) && s !in l.used
    case Destroyed(g, s) => l.open == Some(g) && s in l.live && l.live[s].engine == g
    case Selected(g, s, _) => l.open == Some(g) && s in l.live && l.live[s].engine == g
    case Calculated(g, s, p) => l.open == Some(g) && s in l.live && l.live[s] == Session(g, p)
    case CalculatedOnce(g, _) => l.open == Some(g)
  }

  function Enter(l: Ledger, e: Event): Ledger {
    match e
    case Opened(g) => l.(open := Some(g))
    case Closed(_) => l.(open := None)
    case Created(g, s, p) => l.(live := l.live[s := Session(g, p)], used := l.used + {s})
    case Destroyed(_, s) => l.(live := l.live - {s})
    case Selected(_, _, _) => l
    case Calculated(_, _, _) => l
    case CalculatedOnce(_, _) => l
  }

  // The ledger after a history; None when a rule was broken.
  function Replay(log: seq<Event>): Option<Ledger> {
    if log == [] then Some(Ledger(None, map[], {}))
    else
      var before := Replay(log[..|log| - 1]);
      var e := log[|log| - 1];
      if before.None? || !Allowed(before.value, e) then None else Some(Enter(before.value, e))
  }

  lemma ReplayNext(log: seq<Event>, e: Event)
    ensures Replay(log + [e]) ==
      if Replay(log).None? || !Allowed(Replay(log).value, e) then None else Some(Enter(Replay(log).value, e))
  {
    assert (log + [e])[..|log|] == log;
  }

  // ---- What the rules mean for a history ----

  function CreatedCount(log: seq<Event>): nat {
    if log == [] then 0
    else CreatedCount(log[..|log| - 1]) + if log[|log| - 1].Created? then 1 else 0
  }

  function DestroyedCount(log: seq<Event>): nat {
    if log == [] then 0
    else DestroyedCount(log[..|log| - 1]) + if log[|log| - 1].Destroyed? then 1 else 0
  }

  lemma KeyAdded(live: map<nat, Session>, s: nat, held: Session)
    ensures live[s := held].Keys == live.Keys + {s}
    ensures s !in live ==> |live[s := held]| == |live| + 1
  {
    assert live[s := held].Keys == live.Keys + {s};
  }

  lemma KeyRemoved(live: map<nat, Session>, s: nat)
    requires s in live
    ensures (live - {s}).Keys == live.Keys - {s} && |live - {s}| == |live| - 1
  {
    assert (live - {s}).Keys == live.Keys - {s};
  }

  lemma {:induction false} LedgerBalances(log: seq<Event>)
    requires Replay(log).Some?
    ensures CreatedCount(log) - DestroyedCount(log) == |Replay(log).value.live|
    ensures Replay(log).value.live.Keys <= Replay(log).value.used
  {
    if log != [] {
      var front, e := log[..|log| - 1], log[|log| - 1];
      LedgerBalances(front);
      var l := Replay(front).value;
      match e {
        case Created(g, s, p) => KeyAdded(l.live, s, Session(g, p));
        case Destroyed(_, s) => KeyRemoved(l.live, s);
        case _ =>
      }
    }
  }

  // log[i] created session s, and nothing after it ended s or its library.
  predicate HeldSince(log: seq<Event>, i: nat, s: nat, held: Session) {
    && i < |log| && log[i] == Created(held.engine, s, held.params)
    && forall k :: i < k < |log| ==> !log[k].Closed? && !(log[k].Destroyed? && log[k].session == s)
  }

  lemma {:induction false} LiveIsHeld(log: seq<Event>, s: nat) returns (i: nat)
    requires Replay(log).Some? && s in Replay(log).value.live
    ensures HeldSince(log, i, s, Replay(log).value.live[s])
  {
    var front, e := log[..|log| - 1], log[|log| - 1];
    if e.Created? && e.session == s {
      i := |log| - 1;
    } else {
      i := LiveIsHeld(front, s);
      assert forall k :: i <= k < |front| ==> log[k] == front[k];
    }
  }

  lemma {:induction false} ReplayPrefix(log: seq<Event>, n: nat)
    requires Replay(log).Some? && n <= |log|
    ensures Replay(log[..n]).Some?
    ensures n < |log| ==> Allowed(Replay(log[..n]).value, log[n])
    decreases |log| - n
  {
    if n == |log| {
      assert log[..n] == log;
    } else {
      ReplayPrefix(log, n + 1);
      assert log[..n + 1][..n] == log[..n];
    }
  }

  // A destroyed session was created by the same engine, and neither destroyed
  // nor deprived of its library in between.
  lemma DestroyedByItsCreator(log: seq<Event>, n: nat) returns (i: nat, held: Session)
    requires Replay(log).Some? && n < |log| && log[n].Destroyed?
    ensures i < n && HeldSince(log[..n], i, log[n].session, held) && held.engine == log[n].engine
  {
    ReplayPrefix(log, n);
    i := LiveIsHeld(log[..n], log[n].session);
    held := Replay(log[..n]).value.live[log[n].session];
  }

  // ---- The instance ----

  function SessionsOf(session: Option<nat>, engine: Option<Engine>, params: seq<nat>): map<nat, Session> {
    if session.None? || engine.None? then map[] else map[session.value := Session(engine.value, params)]
  }

  // The first n handles.
  function Handles(n: nat): (r: set<nat>)
    ensures forall i: nat :: i in r <==> i < n
  {
    if n == 0 then {} else Handles(n - 1) + {n - 1}
  }

  lemma EmptyHistory()
    ensures Replay([]) == Some(Ledger(None, map[], {})) && Handles(0) == {}
  {
  }

  // An explicit path comes before the usual ones.
  function Paths(enginePath: string, candidates: seq<string>): (paths: seq<string>)
    ensures |paths| >= |candidates| && paths[|paths| - |candidates|..] == candidates
    ensures enginePath == "" ==> paths == candidates
    ensures enginePath != "" ==> |paths| == |candidates| + 1 && paths[0] == enginePath
  {
    (if enginePath == "" then [] else [enginePath]) + candidates
  }

  function FirstOpen(paths: seq<string>, open: string -> Option<Engine>): Option<Engine> {
    if paths == [] then None else if open(paths[0]).Some? then open(paths[0]) else FirstOpen(paths[1..], open)
  }

  // The library is what the first path opens that opens anything.
  lemma {:induction false} FirstThatOpens(paths: seq<string>, open: string -> Option<Engine>)
    ensures FirstOpen(paths, open).None? <==> forall i :: 0 <= i < |paths| ==> open(paths[i]).None?
    ensures FirstOpen(paths, open).Some? ==>
      exists i :: 0 <= i < |paths| && open(paths[i]) == FirstOpen(paths, open)
        && forall j :: 0 <= j < i ==> open(paths[j]).None?
  {
    if paths != [] && open(paths[0]).None? {
      var rest := paths[1..];
      FirstThatOpens(rest, open);
      assert forall i :: 0 < i < |paths| ==> paths[i] == rest[i - 1];
      if FirstOpen(rest, open).Some? {
        var i :| 0 <= i < |rest| && open(rest[i]) == FirstOpen(rest, open)
          && forall j :: 0 <= j < i ==> open(rest[j]).None?;
        assert open(paths[i + 1]) == FirstOpen(paths, open);
        assert forall j :: 0 <= j < i + 1 ==> open(paths[j]).None?;
      }
    }
  }

  // A library the loader keeps: feature discovery and one of the two ways to
  // calculate.
  predicate Usable(library: Option<Engine>) {
    && library.Some?
    && var s := library.value.symbols;
    && s.features
    && ((s.energyGradient && s.setParams) || (s.sessionCreate && s.sessionDestroy && s.resultSize && s.calculate))
  }

  function Swapped(before: Option<Engine>, after: Option<Engine>): seq<Event> {
    (if before.Some? then [Closed(before.value)] else []) + (if after.Some? then [Opened(after.value)] else [])
  }

  predicate HasSessions(engine: Engine) {
    var s := engine.symbols;
    s.sessionCreate && s.sessionDestroy && s.resultSize && s.calculate
  }

  // What configuring a usable engine answers: with sessions, one is kept or
  // made; without, the engine takes the parameters.
  predicate Configured(engine: Engine, kept: bool, answers: Answers) {
    answers.accepts && if HasSessions(engine) then kept || answers.creates else answers.takes
  }

  // A session is made by a usable, accepted engine that has sessions and gives one.
  predicate MakesSession(engine: Option<Engine>, answers: Answers) {
    Usable(engine) && answers.accepts && HasSessions(engine.value) && answers.creates
  }

  function NewSession(engine: Option<Engine>, next: nat, params: seq<nat>, answers: Answers): seq<Event> {
    if MakesSession(engine, answers) then [Created(engine.value, next, params)] else []
  }

  function Ended(library: Option<Engine>, session: Option<nat>): seq<Event>
    requires session.Some? ==> library.Some?
  {
    if session.Some? then [Destroyed(library.value, session.value)] else []
  }

  lemma NothingEnded(library: Option<Engine>)
    ensures Ended(library, None) == []
  {
  }

  lemma NothingMade(engine: Option<Engine>, next: nat, params: seq<nat>, answers: Answers)
    ensures !Usable(engine) ==> !MakesSession(engine, answers) && NewSession(engine, next, params, answers) == []
  {
  }

  lemma FromNothing(a: seq<Event>, b: seq<Event>)
    ensures [] + a + b == a + b
  {
  }

  lemma FourParts(a: seq<Event>, b: seq<Event>, c: seq<Event>, d: seq<Event>)
    ensures c == [] ==> a + b + c + d == a + b + d
    ensures d == [] ==> a + b + c + d == a + b + c
    ensures b == [] ==> a + b + c == a + c
  {
  }

  class CpmdPot {
    // bundle
    var library: Option<Engine>
    var symbols: Symbols
    var loaded: bool

    var paramsWords: seq<nat>
    var enginePath: string
    var session: Option<nat>
    var sessionParams: seq<nat>
    var sessionEnginePath: string
    // The calculation the next force belongs to.
    var orbitalKey: Option<int>
    const candidates: seq<string>

    // The engines' side: sessions given out so far, each a new handle.
    var created: nat
    ghost var log: seq<Event>

    // The history obeys the rules, and the ledger is what the fields say.
    ghost predicate Accounted()
      reads this
    {
      && (session.Some? ==> library.Some? && SessionAbi(symbols) && session.value < created)
      && (library.Some? ==> symbols == library.value.symbols)
      && (loaded ==> Usable(library))
      && Replay(log) == Some(Ledger(library, SessionsOf(session, library, sessionParams), Handles(created)))
    }

    // Moreover a live session has the current parameters and engine path, and
    // its library is in use.
    ghost predicate Valid()
      reads this
    {
      && Accounted()
      && (session.Some? ==> loaded && sessionParams == paramsWords && sessionEnginePath == enginePath)
    }

    ghost method Note(e: Event)
      requires Replay(log).Some? && Allowed(Replay(log).value, e)
      modifies this`log
      ensures log == old(log) + [e] && Replay(log) == Some(Enter(Replay(old(log)).value, e))
    {
      ReplayNext(log, e);
      log := log + [e];
    }

    // An instance on the default parameters (no engine path) or on given ones.
    constructor (params: Params, more: seq<string>, answers: Answers)
      ensures Valid() && paramsWords == params.words && enginePath == params.enginePath
      ensures var engine := FirstOpen(Paths(params.enginePath, more), answers.open);
        && library == engine
        && log == Swapped(None, engine) + NewSession(engine, 0, params.words, answers)
        && (Available() <==> Usable(engine) && answers.accepts && (HasSessions(engine.value) ==> answers.creates))
    {
      library, symbols, loaded := None, NO_SYMBOLS, false;
      paramsWords, enginePath := params.words, params.enginePath;
      session, sessionParams, sessionEnginePath := None, [], "";
      orbitalKey := None;
      candidates := more;
      log, created := [], 0;
      new;
      hide *;
      NothingToAccountFor();
      ghost var engine := FirstOpen(Paths(enginePath, candidates), answers.open);
      FromNothing(Swapped(None, engine), NewSession(engine, 0, paramsWords, answers));
      Start(answers);
    }

    lemma NothingToAccountFor()
      requires session.None? && library.None? && !loaded && created == 0 && log == []
      ensures Accounted()
    {
      EmptyHistory();
      hide Replay, Handles;
    }

    // Loading and configuring a new instance.
    method Start(answers: Answers)
      requires Accounted() && session.None? && library.None?
      modifies this`library, this`symbols, this`loaded, this`session, this`sessionParams, this`sessionEnginePath,
               this`log, this`created
      ensures Valid() && library == FirstOpen(Paths(enginePath, candidates), answers.open)
      ensures log == old(log) + Swapped(None, library) + NewSession(library, old(created), paramsWords, answers)
      ensures Available() <==> Usable(library) && answers.accepts && (HasSessions(library.value) ==> answers.creates)
    {
      hide Accounted, FirstOpen, Paths, Swapped, NewSession, Usable, HasSessions, MakesSession, Configured, Ended;
      var ok := TryLoad(answers);
      NothingMade(library, created, paramsWords, answers);
      if ok {
        NothingEnded(library);
        FourParts(log, [], NewSession(library, created, paramsWords, answers), []);
        ok := Configure(answers);
      }
    }

    // try_load_engine: the first path that opens, if it has what is needed.
    method TryLoad(answers: Answers) returns (ok: bool)
      requires Accounted() && session.None? && library.None?
      modifies this`library, this`symbols, this`loaded, this`log
      ensures Accounted() && ok == loaded
      // The first path that opens is taken, and kept only if it has what is needed.
      ensures library == FirstOpen(Paths(enginePath, candidates), answers.open)
      ensures ok <==> Usable(library)
      ensures log == old(log) + Swapped(None, library)
    {
      hide *;
      ClearSymbols();
      OpenLibrary(answers);
      ok := CheckSymbols();
    }

    method ClearSymbols()
      requires Accounted() && session.None? && library.None?
      modifies this`symbols, this`loaded
      ensures Accounted() && symbols == NO_SYMBOLS && !loaded
    {
      hide Replay, Handles, SessionsOf;
      symbols, loaded := NO_SYMBOLS, false;
    }

    // A library counts as loaded when it has what is needed.
    method CheckSymbols() returns (ok: bool)
      requires Accounted() && !loaded
      modifies this`loaded
      ensures Accounted() && ok == loaded && (ok <==> Usable(library))
    {
      hide Replay, Handles, SessionsOf;
      if library.None? {
        return false;
      }
      if !symbols.features {
        return false;
      }
      if !OneShot(symbols) && !SessionAbi(symbols) {
        return false;
      }
      loaded := true;
      return true;
    }

    method OpenLibrary(answers: Answers)
      requires Accounted() && session.None? && library.None? && !loaded
      modifies this`library, this`symbols, this`log
      ensures Accounted() && library == FirstOpen(Paths(enginePath, candidates), answers.open)
      ensures log == old(log) + Swapped(None, library)
    {
      hide Replay, Handles, Paths, SessionsOf;
      var paths := Paths(enginePath, candidates);
      for i := 0 to |paths|
        invariant library.None? && log == old(log) && Accounted()
        invariant FirstOpen(paths, answers.open) == FirstOpen(paths[i..], answers.open)
      {
        assert paths[i..][1..] == paths[i + 1..];
        if answers.open(paths[i]).Some? {
          OpenAt(answers.open(paths[i]).value);
          return;
        }
      }
    }

    method OpenAt(engine: Engine)
      requires Accounted() && session.None? && library.None? && !loaded
      modifies this`library, this`symbols, this`log
      ensures Accounted() && library == Some(engine) && log == old(log) + [Opened(engine)]
    {
      hide Replay, Handles;
      library := Some(engine);
      Note(Opened(engine));
      symbols := engine.symbols;
    }

    method DestroySession()
      requires Accounted()
      modifies this`session, this`sessionParams, this`sessionEnginePath, this`log
      ensures Accounted() && session.None?
      ensures log == old(log) + Ended(library, old(session))
    {
      if session.Some? && symbols.sessionDestroy {
        Note(Destroyed(library.value, session.value));
      }
      session, sessionParams, sessionEnginePath := None, [], "";
    }

    // Impl::configure
    method Configure(answers: Answers) returns (ok: bool)
      requires Accounted() && loaded
      modifies this`loaded, this`session, this`sessionParams, this`sessionEnginePath, this`log, this`created
      ensures Valid() && loaded == answers.accepts
      ensures ok ==> Available()
      ensures var kept := answers.accepts && SessionAbi(symbols) && old(session).Some?
                          && old(sessionParams) == paramsWords && old(sessionEnginePath) == enginePath;
        && (ok <==> Configured(library.value, kept, answers))
        && (kept ==> log == old(log) && session == old(session))
        && (!kept ==> session == (if MakesSession(library, answers) then Some(old(created)) else None)
                      && log == old(log) + Ended(library, old(session))
                                + NewSession(library, old(created), paramsWords, answers))
        && (Available() <==> answers.accepts && (HasSessions(library.value) ==> kept || answers.creates))
    {
      hide Replay;
      if !answers.accepts {
        loaded := false;
        DestroySession();
        return false;
      }
      if SessionAbi(symbols) {
        if session.Some? && enginePath == sessionEnginePath && paramsWords == sessionParams {
          return true;
        }
        DestroySession();
        ok := CreateSession(answers);
        return;
      }
      DestroySession();
      return symbols.setParams && answers.takes;
    }

    // A session for the current parameters, unless the engine gives none.
    method CreateSession(answers: Answers) returns (ok: bool)
      requires Accounted() && session.None? && loaded && SessionAbi(symbols)
      modifies this`session, this`sessionParams, this`sessionEnginePath, this`log, this`created
      ensures Valid() && ok == answers.creates
      ensures session == if ok then Some(old(created)) else None
      ensures log == old(log) + if ok then [Created(library.value, old(created), paramsWords)] else []
    {
      if !answers.creates {
        return false;
      }
      session := Some(created);
      Note(Created(library.value, created, paramsWords));
      created := created + 1;
      sessionParams := paramsWords;
      sessionEnginePath := enginePath;
      return true;
    }

    // The bundle is replaced by an empty one.
    method Unload()
      requires Accounted() && session.None?
      modifies this`library, this`symbols, this`loaded, this`log
      ensures Accounted() && library.None? && !loaded
      ensures log == old(log) + if old(library).Some? then [Closed(old(library).value)] else []
    {
      if library.Some? {
        Note(Closed(library.value));
      }
      library, symbols, loaded := None, NO_SYMBOLS, false;
    }

    method SetParams(params: Params, answers: Answers) returns (ok: bool)
      requires Valid()
      modifies this`library, this`symbols, this`loaded, this`paramsWords, this`enginePath, this`session, this`sessionParams,
               this`sessionEnginePath, this`log, this`created
      ensures Valid() && paramsWords == params.words && enginePath == params.enginePath
      ensures ok ==> Available()
      // A live session survives exactly an unchanged configuration that is
      // accepted; then no engine call is made at all. Otherwise its engine
      // destroys it, another path or a failed load replaces the library, and
      // a session for the new parameters is made where there are sessions.
      ensures
        var reload := !old(loaded) || params.enginePath != old(enginePath);
        var engine := if reload then FirstOpen(Paths(params.enginePath, candidates), answers.open) else old(library);
        var kept := !reload && answers.accepts && old(session).Some? && old(paramsWords) == params.words;
        && library == engine
        && (ok <==> Usable(engine) && Configured(engine.value, kept, answers))
        && (kept ==> session == old(session) && log == old(log))
        && (!kept ==> session == (if MakesSession(engine, answers) then Some(old(created)) else None)
                      && log == old(log) + Ended(old(library), old(session))
                        + (if reload then Swapped(old(library), engine) else [])
                        + NewSession(engine, old(created), params.words, answers))
    {
      hide Replay, FirstOpen, Paths, Handles, Swapped, NewSession, Usable, HasSessions, MakesSession, Configured, Ended,
        SessionsOf;
      var reload := !loaded || params.enginePath != enginePath;
      paramsWords := params.words;
      enginePath := params.enginePath;
      if reload {
        ok := ReloadAndConfigure(answers);
        return;
      }
      FourParts(log, Ended(library, session), [], NewSession(library, created, paramsWords, answers));
      ok := Configure(answers);
    }

    // The library is replaced, and what replaces it configured.
    method ReloadAndConfigure(answers: Answers) returns (ok: bool)
      requires Accounted()
      modifies this`library, this`symbols, this`loaded, this`session, this`sessionParams, this`sessionEnginePath,
               this`log, this`created
      ensures Valid() && library == FirstOpen(Paths(enginePath, candidates), answers.open)
      ensures ok ==> Available()
      ensures ok <==> Usable(library) && Configured(library.value, false, answers)
      ensures session == if MakesSession(library, answers) then Some(old(created)) else None
      ensures log == old(log) + Ended(old(library), old(session)) + Swapped(old(library), library)
                     + NewSession(library, old(created), paramsWords, answers)
    {
      hide Accounted, FirstOpen, Paths, Swapped, NewSession, Usable, HasSessions, MakesSession, Configured, Ended;
      ok := Reload(answers);
      NothingMade(library, created, paramsWords, answers);
      if ok {
        NothingEnded(library);
        FourParts(log, [], NewSession(library, created, paramsWords, answers), []);
        ok := Configure(answers);
      }
    }

    // The session and the library go, and the paths are tried again.
    method Reload(answers: Answers) returns (ok: bool)
      requires Accounted()
      modifies this`library, this`symbols, this`loaded, this`session, this`sessionParams, this`sessionEnginePath, this`log
      ensures Accounted() && session.None? && ok == loaded
      ensures library == FirstOpen(Paths(enginePath, candidates), answers.open)
      ensures ok <==> Usable(library)
      ensures log == old(log)
        + Ended(old(library), old(session)) + Swapped(old(library), library)
    {
      hide Replay, FirstOpen, Paths, Handles;
      DestroySession();
      Unload();
      ok := TryLoad(answers);
    }

    predicate Available()
      reads this
      ensures library.Some? && symbols == library.value.symbols ==>
        (Available() <==> loaded && if HasSessions(library.value) then session.Some?
                                    else library.value.symbols.energyGradient && library.value.symbols.setParams)
    {
      loaded && if SessionAbi(symbols) then session.Some? else OneShot(symbols)
    }

    method SelectOrbitals(key: int)
      requires Valid()
      modifies this`orbitalKey
      ensures Valid() && orbitalKey == Some(key)
    {
      orbitalKey := Some(key);
    }

    // The calls a force makes. An engine with sessions is always called
    // through the session of the current parameters, with the orbital key
    // named first on every call.
    function ForceEvents(e: Engagement): seq<Event>
      requires library.Some? && (SessionAbi(symbols) ==> session.Some?)
      reads this
    {
      if !SessionAbi(symbols) then [CalculatedOnce(library.value, paramsWords)]
      else if !e.sizes then []
      else if orbitalKey.None? || !symbols.selectOrbitals then [Calculated(library.value, session.value, paramsWords)]
      else
        [Selected(library.value, session.value, orbitalKey.value)]
        + if e.selects then [Calculated(library.value, session.value, paramsWords)] else []
    }

    // forceImplOrThrow: done says that no exception left it.
    method Force(bindingRefused: bool, inputOk: bool, e: Engagement) returns (done: bool)
      requires Valid()
      modifies this`log
      ensures Valid()
      ensures log == old(log) + if bindingRefused || !Available() || !inputOk then [] else ForceEvents(e)
      ensures done <==> log != old(log) && !log[|log| - 1].Selected? && e.delivers
    {
      if bindingRefused || !Available() || !inputOk {
        return false;
      }
      if SessionAbi(symbols) && session.Some? {
        done := ForceSession(e);
        return;
      }
      Note(CalculatedOnce(library.value, paramsWords));
      return e.delivers;
    }

    // Impl::forceSession
    method ForceSession(e: Engagement) returns (done: bool)
      requires Valid() && Available() && SessionAbi(symbols)
      modifies this`log
      ensures Valid() && log == old(log) + ForceEvents(e)
      ensures done <==> log != old(log) && !log[|log| - 1].Selected? && e.delivers
    {
      if !e.sizes {
        return false;
      }
      if orbitalKey.Some? && symbols.selectOrbitals {
        Note(Selected(library.value, session.value, orbitalKey.value));
        if !e.selects {
          return false;
        }
      }
      Note(Calculated(library.value, session.value, paramsWords));
      return e.delivers;
    }

    // The destructor: nothing is left behind.
    method Close()
      requires Valid()
      modifies this
      ensures Replay(log).Some? && Replay(log).value.open.None? && Replay(log).value.live == map[]
      ensures CreatedCount(log) == DestroyedCount(log)
    {
      DestroySession();
      Unload();
      LedgerBalances(log);
    }

    method Run(operations: seq<Operation>)
      requires Valid()
      modifies this
      ensures Valid()
    {
      for i := 0 to |operations|
        invariant Valid()
      {
        match operations[i] {
          case Set(params, answers) => var _ := SetParams(params, answers);
          case Select(key) => SelectOrbitals(key);
          case Evaluate(refused, inputOk, engagement) => var _ := Force(refused, inputOk, engagement);
        }
      }
    }
  }

  datatype Operation =
    | Set(params: Params, answers: Answers)
    | Select(key: int)
    | Evaluate(refused: bool, inputOk: bool, engagement: Engagement)

  // In every state of every run: created minus destroyed is 0 or 1, and is 1
  // exactly when the instance holds a session.
  lemma OneSessionAtMost(pot: CpmdPot)
    requires pot.Valid()
    ensures CreatedCount(pot.log) - DestroyedCount(pot.log) == if pot.session.Some? then 1 else 0
  {
    LedgerBalances(pot.log);
  }

  // A whole life: construction, any calls, destruction.
  method Life(params: Params, more: seq<string>, answers: Answers, operations: seq<Operation>) returns (pot: CpmdPot)
    ensures Replay(pot.log).Some? && CreatedCount(pot.log) == DestroyedCount(pot.log)
  {
    pot := new CpmdPot(params, more, answers);
    pot.Run(operations);
    pot.Close();
  }
}
