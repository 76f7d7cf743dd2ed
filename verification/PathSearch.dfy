/** execlp.c: the search for a program along PATH. */
module PathSearch {

  import opened CStrings
  import opened Prelude

  datatype Errno = EACCES | ENOENT | ENOEXEC | EOTHER(code: nat)

  // What an execve() does: run the program, and never return, or fail.
  datatype Answer = Runs | Error(errno: Errno)

  // What execlp() does, as the kernel sees it.
  datatype Event = Exec(pathname: string, answer: Answer) | Shell(answer: Answer)

  // ---------- PATH ----------

  function FirstColon(s: string): (k: nat)
    ensures k <= |s| && (forall i | 0 <= i < k :: s[i] != ':') && (k < |s| ==> s[k] == ':')
  {
    if s == "" || s[0] == ':' then 0 else 1 + FirstColon(s[1..])
  }

  function Split(path: string): (r: seq<string>)
    ensures r != []
    decreases |path|
  {
    var k := FirstColon(path);
    if k == |path| then [path] else [path[..k]] + Split(path[k + 1..])
  }

  function Join(pieces: seq<string>): string
    requires pieces != []
  {
    if |pieces| == 1 then pieces[0] else pieces[0] + ":" + Join(pieces[1..])
  }

  predicate ColonFree(pieces: seq<string>) {
    forall i, j | 0 <= i < |pieces| && 0 <= j < |pieces[i]| :: pieces[i][j] != ':'
  }

  lemma JoinCons(first: string, rest: seq<string>)
    requires rest != []
    ensures Join([first] + rest) == first + ":" + Join(rest)
    ensures ColonFree([first]) && ColonFree(rest) ==> ColonFree([first] + rest)
  {
    var all := [first] + rest;
    assert all[1..] == rest;
    if ColonFree([first]) && ColonFree(rest) {
      forall i, j | 0 <= i < |all| && 0 <= j < |all[i]| ensures all[i][j] != ':' {
        if i == 0 { assert [first][0][j] != ':'; } else { assert rest[i - 1][j] != ':'; }
      }
    }
  }

  lemma {:induction false} JoinSplit(path: string)
    ensures Join(Split(path)) == path && ColonFree(Split(path))
    decreases |path|
  {
    var k := FirstColon(path);
    FirstPiece(path);
    if k < |path| {
      SplitAt(path, k);
      JoinSplit(path[k + 1..]);
      hide *;
      JoinCons(path[..k], Split(path[k + 1..]));
      assert path == path[..k] + ":" + path[k + 1..];
    }
    hide *;
  }

  lemma FirstPiece(path: string)
    ensures var k := FirstColon(path);
      && ColonFree([path[..k]])
      && (k == |path| ==> path[..k] == path && Split(path) == [path] && Join([path]) == path)
  {
    var k := FirstColon(path);
    assert k == |path| ==> path[..k] == path;
    hide FirstColon;
  }

  lemma SplitCons(first: string, rest: string)
    requires forall j | 0 <= j < |first| :: first[j] != ':'
    ensures Split(first + ":" + rest) == [first] + Split(rest)
  {
    var path, n := first + ":" + rest, |first|;
    FirstColonAt(path, n);
    SplitAt(path, n);
    hide *;
    assert path[..n] == first && path[n + 1..] == rest;
  }

  lemma {:induction false} SplitJoin(pieces: seq<string>)
    requires pieces != [] && ColonFree(pieces)
    ensures Split(Join(pieces)) == pieces
  {
    if |pieces| == 1 {
      FirstColonAt(pieces[0], |pieces[0]|);
      assert pieces == [pieces[0]];
    } else {
      SplitJoin(pieces[1..]);
      SplitCons(pieces[0], Join(pieces[1..]));
      assert Join(pieces) == pieces[0] + ":" + Join(pieces[1..]);
      hide *;
      assert pieces == [pieces[0]] + pieces[1..];
    }
  }

  lemma SplitAt(path: string, k: nat)
    requires k < |path| && FirstColon(path) == k
    ensures Split(path) == [path[..k]] + Split(path[k + 1..])
  {
  }

  /** Split gives the one list of colon-free pieces that, joined by colons, make up the path. */
  lemma SplitIff(path: string, pieces: seq<string>)
    requires pieces != []
    ensures pieces == Split(path) <==> Join(pieces) == path && ColonFree(pieces)
  {
    JoinSplit(path);
    if ColonFree(pieces) { SplitJoin(pieces); }
  }

  lemma FirstColonAt(s: string, n: nat)
    requires n <= |s| && (n < |s| ==> s[n] == ':') && forall i | 0 <= i < n :: s[i] != ':'
    ensures FirstColon(s) == n
  {
    var k := FirstColon(s);
    hide FirstColon;
  }

  /** POSIX.1-2008 XBD, section 8.3: a zero-length prefix is the current directory. */
  function Candidate(prefix: string, filename: string): string {
    (if prefix == "" then "." else prefix) + "/" + filename
  }

  function CandidatesIn(prefixes: seq<string>, filename: string): seq<string> {
    if prefixes == [] then [] else [Candidate(prefixes[0], filename)] + CandidatesIn(prefixes[1..], filename)
  }

  function Candidates(filename: string, path: Option<string>): seq<string> {
    if '/' in filename then [filename]
    else CandidatesIn(Split(if path.None? || path.value == "" then "." else path.value), filename)
  }

  /** A filename with a slash is tried alone, as it is; otherwise it is looked for in every prefix, and for
      an empty one in the current directory. */
  lemma CandidatesAre(filename: string, path: Option<string>)
    ensures '/' in filename ==> Candidates(filename, path) == [filename]
    ensures '/' !in filename ==>
      var prefixes := Split(if path.None? || path.value == "" then "." else path.value);
      && |Candidates(filename, path)| == |prefixes|
      && forall i | 0 <= i < |prefixes| ::
           Candidates(filename, path)[i] == (if prefixes[i] == "" then "./" else prefixes[i] + "/") + filename
  {
    if '/' !in filename { InEveryPrefix(Split(if path.None? || path.value == "" then "." else path.value), filename); }
  }

  lemma CandidatesExist(filename: string, path: Option<string>)
    ensures Candidates(filename, path) != []
  {
    CandidatesAre(filename, path);
  }

  lemma {:induction false} InEveryPrefix(prefixes: seq<string>, filename: string)
    ensures |CandidatesIn(prefixes, filename)| == |prefixes|
    ensures forall i | 0 <= i < |prefixes| ::
      CandidatesIn(prefixes, filename)[i] == (if prefixes[i] == "" then "./" else prefixes[i] + "/") + filename
  {
    if prefixes != [] {
      InEveryPrefix(prefixes[1..], filename);
      assert "." + "/" == "./";
    }
  }

  // ---------- the attempts ----------

  function Answers(answers: seq<Answer>): (r: (Answer, seq<Answer>)) {
    if answers == [] then (Error(ENOENT), []) else (answers[0], answers[1..])
  }

  // The attempts for the given pathnames; a script is tried again with the shell.
  function Tries(pathnames: seq<string>, answers: seq<Answer>): seq<Event>
    decreases |pathnames|
  {
    if pathnames == [] then []
    else
      var (a, rest) := Answers(answers);
      var (b, rest2) := Answers(rest);
      if a.Runs? then [Exec(pathnames[0], a)]
      else if a.errno != ENOEXEC then [Exec(pathnames[0], a)] + Tries(pathnames[1..], rest)
      else if b.Runs? then [Exec(pathnames[0], a), Shell(b)]
      else [Exec(pathnames[0], a), Shell(b)] + Tries(pathnames[1..], rest2)
  }

  function Pathnames(events: seq<Event>): seq<string> {
    if events == [] then []
    else (if events[0].Exec? then [events[0].pathname] else []) + Pathnames(events[1..])
  }

  predicate AllFail(events: seq<Event>) {
    forall i | 0 <= i < |events| :: events[i].answer.Error?
  }

  predicate SomeEACCES(events: seq<Event>) {
    exists i :: 0 <= i < |events| && events[i].Exec? && events[i].answer == Error(EACCES)
  }

  // The error of the last attempt that was not a call of the shell.
  function LastErrno(events: seq<Event>): Option<Errno> {
    if events == [] then None
    else
      var e := events[|events| - 1];
      if e.Exec? && e.answer.Error? then Some(e.answer.errno) else LastErrno(events[..|events| - 1])
  }

  /** With PATH unset or empty, only the current directory is searched. */
  lemma UnsetIsDot(filename: string)
    requires '/' !in filename
    ensures Candidates(filename, None) == Candidates(filename, Some("")) == ["./" + filename]
  {
    assert Split(".") == ["."] by { assert ColonFree(["."]); SplitIff(".", ["."]); }
    assert ["."][1..] == [];
    assert CandidatesIn(["."], filename) == [Candidate(".", filename)];
    assert "." + "/" == "./";
  }

  // ---------- what a search is ----------

  // What attempt number i is answered.
  function AnswerAt(answers: seq<Answer>, i: nat): Answer {
    if i < |answers| then answers[i] else Error(ENOENT)
  }

  // The kernel does not know the format of the file.
  predicate IsScript(e: Event) {
    e.Exec? && e.answer == Error(ENOEXEC)
  }

  // The shell is called after a script, and never else.
  predicate InPlace(events: seq<Event>, i: nat)
    requires i < |events|
  {
    events[i].Shell? <==> i > 0 && IsScript(events[i - 1])
  }

  // The answers come one by one, and no script is left without the shell.
  predicate Timed(events: seq<Event>, answers: seq<Answer>) {
    && (forall i | 0 <= i < |events| :: events[i].answer == AnswerAt(answers, i))
    && (forall i | 0 <= i < |events| :: InPlace(events, i))
    && (events != [] ==> !IsScript(events[|events| - 1]))
  }

  // The pathnames are tried in order, all of them if none succeeds, and none after a success.
  predicate InTurn(events: seq<Event>, pathnames: seq<string>) {
    && (forall i | 0 <= i < |events| - 1 :: events[i].answer.Error?)
    && Pathnames(events) <= pathnames
    && (AllFail(events) ==> Pathnames(events) == pathnames)
  }

  predicate Search(events: seq<Event>, pathnames: seq<string>, answers: seq<Answer>) {
    Timed(events, answers) && InTurn(events, pathnames)
  }

  lemma {:induction false} PathnamesConcat(a: seq<Event>, b: seq<Event>)
    ensures Pathnames(a + b) == Pathnames(a) + Pathnames(b)
  {
    if a == [] {
      assert a + b == b;
    } else {
      assert (a + b)[1..] == a[1..] + b;
      PathnamesConcat(a[1..], b);
    }
  }

  lemma NothingTried(answers: seq<Answer>)
    ensures Search([], [], answers)
  {
  }

  // The answers left after n attempts.
  function Later(answers: seq<Answer>, n: nat): seq<Answer> {
    if n <= |answers| then answers[n..] else []
  }

  lemma AnswersLater(answers: seq<Answer>, n: nat, i: nat)
    ensures AnswerAt(Later(answers, n), i) == AnswerAt(answers, n + i)
  {
  }

  // The attempts for one pathname: one, or for a script two.
  predicate Tried(first: seq<Event>, pathname: string, answers: seq<Answer>) {
    && 1 <= |first| <= 2 && first[0] == Exec(pathname, AnswerAt(answers, 0))
    && (IsScript(first[0]) <==> |first| == 2) && (|first| == 2 ==> first[1] == Shell(AnswerAt(answers, 1)))
  }

  lemma PathnamesTried(first: seq<Event>, pathname: string, answers: seq<Answer>)
    requires Tried(first, pathname, answers)
    ensures Pathnames(first) == [pathname]
  {
    if |first| == 2 {
      assert first[1..][1..] == [];
      assert Pathnames(first[1..]) == Pathnames([]);
    } else {
      assert first[1..] == [];
    }
  }

  lemma TimedAfter(first: seq<Event>, rest: seq<Event>, pathname: string, answers: seq<Answer>)
    requires Tried(first, pathname, answers) && Timed(rest, Later(answers, |first|))
    ensures Timed(first + rest, answers)
  {
    var all, n := first + rest, |first|;
    hide Later, AnswerAt;
    forall i | 0 <= i < |all|
      ensures all[i].answer == AnswerAt(answers, i)
      ensures InPlace(all, i)
    {
      if i >= n {
        AnswersLater(answers, n, i - n);
        assert all[i] == rest[i - n] && InPlace(rest, i - n);
        if i > n { assert all[i - 1] == rest[i - n - 1]; } else { assert all[i - 1] == first[n - 1] && !IsScript(first[n - 1]); }
      } else {
        assert all[i] == first[i] && (i > 0 ==> all[i - 1] == first[i - 1]);
      }
    }
    if rest != [] { assert all[|all| - 1] == rest[|rest| - 1]; } else { assert all == first; }
  }

  lemma InTurnAfter(first: seq<Event>, rest: seq<Event>, pathname: string, more: seq<string>)
    requires Pathnames(first) == [pathname] && AllFail(first) && InTurn(rest, more)
    ensures InTurn(first + rest, [pathname] + more)
  {
    var all := first + rest;
    PathnamesConcat(first, rest);
    hide Pathnames;
    forall i | 0 <= i < |all| - 1
      ensures all[i].answer.Error?
    {
      if i >= |first| { assert all[i] == rest[i - |first|]; } else { assert all[i] == first[i]; }
    }
    if AllFail(all) {
      forall i | 0 <= i < |rest| ensures rest[i].answer.Error? { assert all[|first| + i] == rest[i]; }
    }
  }

  lemma RunsAtLast(first: seq<Event>, pathname: string, more: seq<string>, answers: seq<Answer>)
    requires Tried(first, pathname, answers) && first[|first| - 1].answer.Runs?
    ensures Search(first, [pathname] + more, answers)
  {
    PathnamesTried(first, pathname, answers);
    hide Pathnames;
    assert !AllFail(first);
    assert Timed(first, answers);
  }

  lemma {:induction false} TriesAreSearch(pathnames: seq<string>, answers: seq<Answer>)
    ensures Search(Tries(pathnames, answers), pathnames, answers)
    decreases |pathnames|
  {
    if pathnames == [] {
      NothingTried(answers);
    } else {
      var p, more := pathnames[0], pathnames[1..];
      var (a, rest) := Answers(answers);
      var (b, rest2) := Answers(rest);
      var first := [Exec(p, a)] + if a == Error(ENOEXEC) then [Shell(b)] else [];
      var next := Later(answers, |first|);
      TriesStep(pathnames, answers);
      assert pathnames == [p] + more;
      TriesAreSearch(more, next);
      hide *;
      if first[|first| - 1].answer.Runs? {
        RunsAtLast(first, p, more, answers);
      } else {
        PathnamesTried(first, p, answers);
        SearchAfter(first, Tries(more, next), p, more, answers);
      }
    }
  }

  lemma TriesStep(pathnames: seq<string>, answers: seq<Answer>)
    requires pathnames != []
    ensures var (a, rest) := Answers(answers);
      var (b, rest2) := Answers(rest);
      var first := [Exec(pathnames[0], a)] + if a == Error(ENOEXEC) then [Shell(b)] else [];
      && Tried(first, pathnames[0], answers) && (first[|first| - 1].answer.Runs? || AllFail(first))
      && Tries(pathnames, answers)
         == if first[|first| - 1].answer.Runs? then first else first + Tries(pathnames[1..], Later(answers, |first|))
  {
    var (a, rest) := Answers(answers);
    var (b, rest2) := Answers(rest);
    assert Later(answers, 1) == rest && (a == Error(ENOEXEC) ==> Later(answers, 2) == rest2);
    assert AnswerAt(answers, 0) == a && AnswerAt(answers, 1) == b;
    assert [Exec(pathnames[0], a)] + [Shell(b)] == [Exec(pathnames[0], a), Shell(b)];
  }

  lemma SearchAfter(first: seq<Event>, rest: seq<Event>, pathname: string, more: seq<string>, answers: seq<Answer>)
    requires Tried(first, pathname, answers) && AllFail(first) && Search(rest, more, Later(answers, |first|))
    ensures Search(first + rest, [pathname] + more, answers)
  {
    hide Timed, InTurn, AllFail, Pathnames, Tried, Later;
    PathnamesTried(first, pathname, answers);
    TimedAfter(first, rest, pathname, answers);
    InTurnAfter(first, rest, pathname, more);
  }

  // Up to where both go on, two searches are the same.
  lemma {:induction false} SameSearch(e: seq<Event>, f: seq<Event>, pathnames: seq<string>, answers: seq<Answer>, i: nat)
    requires Search(e, pathnames, answers) && Search(f, pathnames, answers) && i <= |e| && i <= |f|
    ensures e[..i] == f[..i]
  {
    if i > 0 {
      SameSearch(e, f, pathnames, answers, i - 1);
      var init := e[..i - 1];
      if i > 1 { assert e[i - 2] == e[..i - 1][i - 2] == f[..i - 1][i - 2] == f[i - 2]; }
      assert InPlace(e, i - 1) && InPlace(f, i - 1);
      if e[i - 1].Exec? {
        PathnameIn(e, i - 1, pathnames);
        PathnameIn(f, i - 1, pathnames);
      }
      assert e[..i] == init + [e[i - 1]] && f[..i] == init + [f[i - 1]];
    }
  }

  lemma PathnameIn(e: seq<Event>, i: nat, pathnames: seq<string>)
    requires i < |e| && Pathnames(e) <= pathnames && e[i].Exec?
    ensures |Pathnames(e[..i])| < |pathnames| && e[i].pathname == pathnames[|Pathnames(e[..i])|]
  {
    assert e == e[..i] + ([e[i]] + e[i + 1..]);
    PathnamesConcat(e[..i], [e[i]] + e[i + 1..]);
    assert ([e[i]] + e[i + 1..])[1..] == e[i + 1..];
    assert Pathnames([e[i]] + e[i + 1..]) == [e[i].pathname] + Pathnames(e[i + 1..]);
    assert Pathnames(e) == Pathnames(e[..i]) + ([e[i].pathname] + Pathnames(e[i + 1..]));
  }

  // And neither is longer.
  lemma NoLonger(e: seq<Event>, f: seq<Event>, pathnames: seq<string>, answers: seq<Answer>)
    requires Search(e, pathnames, answers) && Search(f, pathnames, answers)
    ensures |f| <= |e|
  {
    if |e| < |f| {
      SameSearch(e, f, pathnames, answers, |e|);
      assert e == f[..|e|];
      assert forall i | 0 <= i < |e| :: e[i] == f[i];
      assert AllFail(e);
      assert InPlace(f, |e|);
      if f[|e|].Exec? { PathnameIn(f, |e|, pathnames); }
      assert false;
    }
  }

  /** The events of a search are exactly the attempts that Tries gives. */
  lemma TriesIff(events: seq<Event>, pathnames: seq<string>, answers: seq<Answer>)
    ensures events == Tries(pathnames, answers) <==> Search(events, pathnames, answers)
  {
    TriesAreSearch(pathnames, answers);
    hide Search, Tries;
    if Search(events, pathnames, answers) {
      var e := Tries(pathnames, answers);
      NoLonger(e, events, pathnames, answers);
      NoLonger(events, e, pathnames, answers);
      SameSearch(e, events, pathnames, answers, |e|);
      assert e[..|e|] == e && events[..|e|] == events;
    }
  }

  /** The search stops at the first program that runs; when every execve() fails, the pathnames tried
      are exactly the given ones, in order. */
  lemma TriedInOrder(pathnames: seq<string>, answers: seq<Answer>)
    ensures var events := Tries(pathnames, answers);
      && (AllFail(events) ==> Pathnames(events) == pathnames)
      && (forall i | 0 <= i < |events| - 1 :: events[i].answer.Error?)
  {
    TriesAreSearch(pathnames, answers);
    hide Tries, Timed, Pathnames, AllFail;
  }

  // execve() is called for the last time.
  predicate LastExec(events: seq<Event>, i: nat)
    requires i < |events|
  {
    events[i].Exec? && forall j | i < j < |events| :: events[j].Shell?
  }

  // Some program has been started.
  predicate Running(events: seq<Event>) {
    events != [] && events[|events| - 1].answer.Runs?
  }

  // The error of execlp(): EACCES if some attempt gave it, otherwise that of the last attempt.
  function FinalErrno(events: seq<Event>): Option<Errno> {
    if SomeEACCES(events) then Some(EACCES) else LastErrno(events)
  }

  // One more attempt that has failed, and the shell's if there was one.
  function AfterFailure(events: seq<Event>, pathname: string, errno: Errno, shell: Option<Answer>): seq<Event> {
    events + [Exec(pathname, Error(errno))] + if shell.Some? then [Shell(shell.value)] else []
  }

  lemma Failure(events: seq<Event>, pathname: string, errno: Errno, shell: Option<Answer>)
    ensures var r := AfterFailure(events, pathname, errno, shell);
      && (SomeEACCES(r) <==> SomeEACCES(events) || errno == EACCES)
      && LastErrno(r) == Some(errno)
  {
    var one, r := events + [Exec(pathname, Error(errno))], AfterFailure(events, pathname, errno, shell);
    assert LastErrno(one) == Some(errno);
    if shell.Some? { assert r[..|r| - 1] == one; }
    if SomeEACCES(events) {
      var i :| 0 <= i < |events| && events[i].Exec? && events[i].answer == Error(EACCES);
      assert r[i] == events[i];
    }
    assert r[|events|] == Exec(pathname, Error(errno));
  }

  // The pathnames still to try when the next prefix starts at start.
  function Left(filename: string, path: string, start: nat, more: bool): seq<string>
    requires more ==> start <= |path|
  {
    if more then CandidatesIn(Split(path[start..]), filename) else []
  }

  // ---------- the program ----------

  function Max(a: nat, b: nat): nat {
    if a > b then a else b
  }

  /** The pathname for one prefix fits its allocation exactly. */
  method BuildPathname(prefix: string, filename: string) returns (pathname: array<char>)
    requires NoNull(prefix) && NoNull(filename)
    ensures Holds(pathname, Candidate(prefix, filename)) && pathname.Length == |Candidate(prefix, filename)| + 1
    ensures Holds(pathname, (if prefix == "" then "./" else prefix + "/") + filename)
    ensures fresh(pathname)
  {
    pathname := new char[Max(1, |prefix|) + |filename| + 2];
    pathname[0] := '\0';
    assert Holds(pathname, "");
    var start := if prefix == "" then "." else prefix;
    StrCat(pathname, "", start);
    assert "" + start == start && "." + "/" == "./";
    StrCat(pathname, start, "/");
    StrCat(pathname, start + "/", filename);
  }

  class Kernel {
    var answers: seq<Answer>
    ghost var trace: seq<Event>

    constructor (answers: seq<Answer>)
      ensures this.answers == answers && trace == []
    {
      this.answers := answers;
      trace := [];
    }

    method Next() returns (a: Answer)
      modifies this`answers
      ensures (a, answers) == Answers(old(answers))
    {
      if answers == [] { return Error(ENOENT); }
      a := answers[0];
      answers := answers[1..];
    }

    method Execve(pathname: array<char>, ghost s: string) returns (a: Answer)
      requires Holds(pathname, s)
      modifies this
      ensures (a, answers) == Answers(old(answers)) && trace == old(trace) + [Exec(s, a)]
    {
      a := Next();
      trace := trace + [Exec(s, a)];
    }

    method ExecShScript() returns (a: Answer)
      modifies this
      ensures (a, answers) == Answers(old(answers)) && trace == old(trace) + [Shell(a)]
    {
      a := Next();
      trace := trace + [Shell(a)];
    }

    // One pathname: run it, or the shell on it. failed is None when this does not return.
    method Attempt(pathname: array<char>, ghost s: string, ghost more: seq<string>)
      returns (failed: Option<Errno>, ghost shell: Option<Answer>)
      requires Holds(pathname, s)
      modifies this
      ensures failed.None? ==> trace == old(trace) + Tries([s] + more, old(answers)) && Running(trace)
      ensures failed.Some? ==> trace + Tries(more, answers) == old(trace) + Tries([s] + more, old(answers))
      ensures failed.Some? ==> trace == AfterFailure(old(trace), s, failed.value, shell) && !Running(trace)
      ensures failed.Some? ==> (shell.Some? <==> failed.value == ENOEXEC)
      ensures failed.None? ==>
        trace == old(trace) + [Exec(s, Runs)] || trace == old(trace) + [Exec(s, Error(ENOEXEC)), Shell(Runs)]
    {
      shell := None;
      assert ([s] + more)[1..] == more;
      var a := Execve(pathname, s);
      if a.Runs? { return None, None; }
      if a.errno == ENOEXEC {
        var b := ExecShScript();
        shell := Some(b);
        if b.Runs? { return None, None; }
      }
      failed := Some(a.errno);
    }

    // The prefix that starts at prStart.
    method TryPrefix(filename: string, PATH: string, prStart: nat)
      returns (prEnd: nat, failed: Option<Errno>, ghost shell: Option<Answer>)
      requires NoNull(filename) && NoNull(PATH) && prStart <= |PATH|
      modifies this
      ensures prEnd == prStart + FirstColon(PATH[prStart..])
      ensures var all := old(trace) + Tries(Left(filename, PATH, prStart, true), old(answers));
        if failed.None? then Running(trace) && trace == all
        else !Running(trace) && trace + Tries(Left(filename, PATH, prEnd + 1, prEnd < |PATH|), answers) == all
      ensures failed.Some? ==>
        trace == AfterFailure(old(trace), Candidate(PATH[prStart..prEnd], filename), failed.value, shell)
    {
      hide Candidate, Left, Tries, AfterFailure, Running, Split, CandidatesIn, Answers;
      prEnd := prStart + FirstColon(PATH[prStart..]);
      var prefix := PATH[prStart..prEnd];
      NextPrefix(PATH, prStart, filename);
      var pathname := BuildPathname(prefix, filename);
      failed, shell := Attempt(pathname, Candidate(prefix, filename), Left(filename, PATH, prEnd + 1, prEnd < |PATH|));
    }

    /** The search along PATH. */
    method SearchPath(filename: string, PATH: string) returns (failed: Option<Errno>)
      requires NoNull(filename) && NoNull(PATH) && trace == []
      modifies this
      ensures trace == Tries(CandidatesIn(Split(PATH), filename), old(answers))
      ensures Search(trace, CandidatesIn(Split(PATH), filename), old(answers))
      ensures failed.None? <==> Running(trace)
      ensures failed.Some? ==> failed == FinalErrno(trace)
    {
      TriesAreSearch(CandidatesIn(Split(PATH), filename), answers);
      var fndEACCES := false;
      var savedErrno: Option<Errno> := None;
      var prStart, morePrefixes := 0, true;
      ghost var shell;
      ghost var all := Tries(CandidatesIn(Split(PATH), filename), answers);
      Started(filename, PATH, answers);
      hide *;
      while morePrefixes
        invariant prStart <= |PATH|
        invariant Searching(all, trace, answers, Left(filename, PATH, prStart, morePrefixes), fndEACCES, savedErrno)
        invariant !morePrefixes ==> savedErrno.Some?
        decreases morePrefixes, |PATH| - prStart
      {
        ghost var before := Progress(trace, answers);
        ghost var left := Left(filename, PATH, prStart, true);
        var prEnd, failure;
        prEnd, failure, shell := TryPrefix(filename, PATH, prStart);
        if failure.None? {
          Stopped(all, before, left, fndEACCES, savedErrno, trace);
          return None;
        }
        Advanced(all, before, left, fndEACCES, savedErrno, Progress(trace, answers),
                 Left(filename, PATH, prEnd + 1, prEnd < |PATH|),
                 Candidate(PATH[prStart..prEnd], filename), failure.value, shell);
        savedErrno := failure;
        if savedErrno == Some(EACCES) { fndEACCES := true; }
        if prEnd == |PATH| {
          EmptyLeft(filename, PATH, prEnd + 1, prStart);
          morePrefixes := false;
        } else {
          prStart := prEnd + 1;
        }
      }
      Finished(all, trace, answers, Left(filename, PATH, prStart, false), fndEACCES, savedErrno);
      EmptyLeft(filename, PATH, prStart, prStart);
      failed := if fndEACCES then Some(EACCES) else savedErrno;
    }

    /** execlp(): returns only when every execve() has failed. */
    method Execlp(filename: string, path: Option<string>) returns (failed: Option<Errno>)
      requires NoNull(filename) && (path.Some? ==> NoNull(path.value)) && trace == []
      modifies this
      ensures trace == Tries(Candidates(filename, path), old(answers))
      ensures Search(trace, Candidates(filename, path), old(answers))
      ensures failed.None? <==> trace != [] && trace[|trace| - 1].answer.Runs?
      ensures failed.Some? && (exists i :: 0 <= i < |trace| && trace[i].Exec? && trace[i].answer == Error(EACCES)) ==>
        failed == Some(EACCES)
      ensures failed.Some? && (forall i | 0 <= i < |trace| :: trace[i].Exec? ==> trace[i].answer != Error(EACCES)) ==>
        exists i :: 0 <= i < |trace| && LastExec(trace, i) && trace[i].answer == Error(failed.value)
    {
      TriesAreSearch(Candidates(filename, path), answers);
      failed := ExecOrSearch(filename, path);
      CandidatesExist(filename, path);
      if failed.Some? {
        assert InPlace(trace, 0);
        FinalIs(trace, failed.value);
      }
      hide Search;
    }

    method ExecOrSearch(filename: string, path: Option<string>) returns (failed: Option<Errno>)
      requires NoNull(filename) && (path.Some? ==> NoNull(path.value)) && trace == []
      modifies this
      ensures trace == Tries(Candidates(filename, path), old(answers))
      ensures failed.None? <==> Running(trace)
      ensures failed.Some? ==> failed == FinalErrno(trace)
    {
      if '/' in filename {
        var pathname := new char[|filename| + 1](i => if 0 <= i < |filename| then filename[i] else '\0');
        ghost var shell;
        failed, shell := Attempt(pathname, filename, []);
        assert [filename] + [] == [filename];
        NoTries(trace, answers);
        if failed.Some? { Failure([], filename, failed.value, shell); }
      } else {
        failed := SearchPath(filename, if path.None? || path.value == "" then "." else path.value);
      }
    }
  }

  lemma {:induction false} LastIs(events: seq<Event>)
    requires events != [] && events[0].Exec? && forall i | 0 <= i < |events| :: events[i].answer.Error?
    ensures exists i :: 0 <= i < |events| && LastExec(events, i) && Some(events[i].answer.errno) == LastErrno(events)
  {
    var n := |events| - 1;
    if events[n].Exec? {
      assert LastExec(events, n);
    } else {
      LastIs(events[..n]);
      var i :| 0 <= i < n && LastExec(events[..n], i) && Some(events[..n][i].answer.errno) == LastErrno(events[..n]);
      assert forall j | i < j < n :: events[j] == events[..n][j];
      assert LastExec(events, i);
    }
  }

  // Which error is returned: EACCES if some execve() gave it, and otherwise that of the last execve().
  lemma FinalIs(events: seq<Event>, errno: Errno)
    requires FinalErrno(events) == Some(errno) && events != [] && events[0].Exec?
    requires forall i | 0 <= i < |events| :: events[i].answer.Error?
    ensures (exists i :: 0 <= i < |events| && events[i].Exec? && events[i].answer == Error(EACCES)) ==> errno == EACCES
    ensures (forall i | 0 <= i < |events| :: events[i].Exec? ==> events[i].answer != Error(EACCES)) ==>
      exists i :: 0 <= i < |events| && LastExec(events, i) && events[i].answer == Error(errno)
  {
    LastIs(events);
  }

  lemma NoTries(events: seq<Event>, answers: seq<Answer>)
    ensures events + Tries([], answers) == events
  {
  }

  datatype Progress = Progress(trace: seq<Event>, answers: seq<Answer>)

  // In the midst of the search: what is done and what is left make up all the attempts.
  predicate Searching(all: seq<Event>, trace: seq<Event>, answers: seq<Answer>, left: seq<string>, fndEACCES: bool,
                      savedErrno: Option<Errno>) {
    && all == trace + Tries(left, answers)
    && (fndEACCES <==> SomeEACCES(trace)) && savedErrno == LastErrno(trace) && !Running(trace)
  }

  lemma Started(filename: string, path: string, answers: seq<Answer>)
    ensures Searching(Tries(CandidatesIn(Split(path), filename), answers), [], answers,
                      Left(filename, path, 0, true), false, None)
  {
    assert path[0..] == path;
    assert [] + Tries(CandidatesIn(Split(path), filename), answers) == Tries(CandidatesIn(Split(path), filename), answers);
  }

  lemma Stopped(all: seq<Event>, before: Progress, left: seq<string>, fndEACCES: bool, savedErrno: Option<Errno>,
                trace: seq<Event>)
    requires Searching(all, before.trace, before.answers, left, fndEACCES, savedErrno)
    requires trace == before.trace + Tries(left, before.answers)
    ensures trace == all
  {
    hide Tries, SomeEACCES, LastErrno, Running;
  }

  lemma Advanced(all: seq<Event>, before: Progress, left: seq<string>, fndEACCES: bool, savedErrno: Option<Errno>,
                 after: Progress, next: seq<string>, pathname: string, errno: Errno, shell: Option<Answer>)
    requires Searching(all, before.trace, before.answers, left, fndEACCES, savedErrno) && !Running(after.trace)
    requires after.trace == AfterFailure(before.trace, pathname, errno, shell)
    requires after.trace + Tries(next, after.answers) == before.trace + Tries(left, before.answers)
    ensures Searching(all, after.trace, after.answers, next, fndEACCES || errno == EACCES, Some(errno))
  {
    Failure(before.trace, pathname, errno, shell);
    hide Tries, SomeEACCES, LastErrno, Running, AfterFailure;
  }

  lemma Finished(all: seq<Event>, trace: seq<Event>, answers: seq<Answer>, left: seq<string>, fndEACCES: bool,
                 savedErrno: Option<Errno>)
    requires Searching(all, trace, answers, left, fndEACCES, savedErrno) && savedErrno.Some?
    ensures left == [] ==> trace == all
    ensures !Running(trace) && FinalErrno(trace) == if fndEACCES then Some(EACCES) else savedErrno
  {
    NoTries(trace, answers);
  }

  lemma EmptyLeft(filename: string, path: string, start: nat, next: nat)
    ensures Left(filename, path, start, false) == [] == Left(filename, path, next, false)
  {
  }

  // The prefix that starts at start, and the ones after it.
  lemma NextPrefix(path: string, start: nat, filename: string)
    requires start <= |path|
    ensures var end := start + FirstColon(path[start..]);
      Left(filename, path, start, true) == [Candidate(path[start..end], filename)] + Left(filename, path, end + 1, end < |path|)
  {
    var s := path[start..];
    var k := FirstColon(s);
    assert s[..k] == path[start..start + k];
    if k < |s| {
      SplitAt(s, k);
      assert s[k + 1..] == path[start + k + 1..];
      assert Split(s)[1..] == Split(s[k + 1..]);
    } else {
      assert s[..k] == s && Split(s) == [s] && [s][1..] == [];
      assert CandidatesIn([s], filename) == [Candidate(s, filename)];
    }
  }
}
