/** The abstract environment the provisioning code runs against.

    Every interaction with the outside world -- a child process, a call into
    the operating system, an opaque library producer such as key generation
    or template rendering -- is an `Event`. Whether it succeeds and what it
    prints is an input: an `Oracle` maps the position of the event in the
    trace, together with the event itself, to its `Reply`. A successful event
    then changes the `World` (files, directories, containers) by its
    documented `Effect`; a failed one changes nothing. `log.Fatalf` and
    `panic` end the process, which the model expresses as a `Status` after
    which a caller issues nothing further. */
module Shell {

  type Argv = seq<string>

  datatype Option<T> = None | Some(value: T)

  datatype Event =
    | Exec(dir: string, argv: Argv)             // a child process run in `dir` ("" is the working directory)
    | LookPath(executable: string)              // exec.LookPath
    | HomeDir                                   // os.UserHomeDir
    | Mkdir(path: string, mode: nat)            // os.Mkdir: one level
    | MkdirAll(path: string, mode: nat)         // os.MkdirAll
    | Rename(source: string, target: string)    // os.Rename
    | RemoveAll(path: string)                   // os.RemoveAll
    | WriteFile(path: string, data: string, mode: nat)  // ioutil.WriteFile
    | GenerateKey(bits: nat)                    // rsa.GenerateKey; the reply carries the encoded private key body
    | PublicKey(privateKey: string)             // ssh.NewPublicKey + ssh.MarshalAuthorizedKey
    | ParseTemplate(path: string)               // template.ParseFiles; the reply carries the template
    | RenderTemplate(template: string, data: string)  // Template.Execute; the reply carries the document

  /** Exit status (or success) and the captured output of one event. */
  datatype Reply = Reply(ok: bool, out: string)

  /** The outcome of every event, by its position in the trace. */
  type Oracle = (nat, Event) -> Reply

  /** Permission bits, written in decimal (Dafny has no octal literals). */
  const Mode0755: nat := 493
  const Mode0644: nat := 420
  const Mode0600: nat := 384

  datatype Node = Dir | File(data: string, mode: nat)
  datatype Container = Container(running: bool, onKind: bool)

  /** The paths present, with their contents, and the containers the
      container runtime knows about. */
  datatype World = World(fs: map<string, Node>, containers: map<string, Container>)

  /** How a Go function ended: normally, through `log.Fatalf`/`log.Fatal`
      (exit status 1), or through `panic`. */
  datatype Status = Ok | Fatal | Panic

  datatype Machine = Machine(trace: seq<Event>, world: World)

  /** The machine after a step, and how the step ended. */
  datatype After = After(m: Machine, status: Status)

  /** The same, for a step that also answers yes or no. */
  datatype Answer = Answer(m: Machine, status: Status, yes: bool)

  /** The errors of `os.Stat`, as far as the model distinguishes them. */
  datatype FsError = ErrNotExist | ErrExist

  /** `os.Stat`: no error for a present path, "does not exist" otherwise. */
  function Stat(fs: map<string, Node>, path: string): Option<FsError>
  {
    if path in fs then None else Some(ErrNotExist)
  }

  /** `os.IsNotExist` and `os.IsExist` on the error of `os.Stat`. */
  predicate IsNotExist(err: Option<FsError>) { err == Some(ErrNotExist) }
  predicate IsExist(err: Option<FsError>) { err == Some(ErrExist) }

  /** `os.Stat` never reports "already exists", so a branch guarded by
      `os.IsExist` of its error is never taken. */
  lemma StatNeverReportsExist(fs: map<string, Node>, path: string)
    ensures !IsExist(Stat(fs, path))
    ensures IsNotExist(Stat(fs, path)) <==> path !in fs
  {
  }

  /** `ioutil.ReadFile`: the contents of a file, or an error. */
  function ReadFile(fs: map<string, Node>, path: string): Option<string>
  {
    if path in fs && fs[path].File? then Some(fs[path].data) else None
  }

  /** `path` is `root` or lies below it. */
  predicate Under(path: string, root: string)
  {
    path == root || (|path| > |root| && path[..|root|] == root && path[|root|] == '/')
  }

  /** A path below `root + "/" + name` lies below `root`. */
  lemma UnderChild(p: string, root: string, name: string)
    requires Under(p, root + "/" + name)
    ensures Under(p, root)
  {
    var child := root + "/" + name;
    assert child[..|root|] == root && child[|root|] == '/';
    if p != child {
      assert p[..|child|] == child;
      assert p[..|root|] == child[..|root|];
    }
  }

  /** Two entries of one directory: one lies below the other exactly when
      their names do. */
  lemma UnderSibling(root: string, a: string, b: string)
    ensures Under(root + "/" + a, root + "/" + b) <==> Under(a, b)
  {
    var x, y := root + "/" + a, root + "/" + b;
    var k := |root| + 1;
    assert x[k..] == a && y[k..] == b;
    assert x[..k] == y[..k];
    if Under(a, b) && a != b {
      assert x[..|y|] == x[..k] + a[..|b|];
      assert x[|y|] == a[|b|];
    }
    if Under(x, y) && x != y {
      assert a[..|b|] == x[..|y|][k..];
      assert a[|b|] == x[|y|];
    }
  }

  /** `dir + "/" + name`, or `name` alone for the working directory. */
  function InDir(dir: string, name: string): string
  {
    if dir == "" then name else dir + "/" + name
  }

  /** The file system without `root` and everything below it. */
  function RemoveTree(fs: map<string, Node>, root: string): (r: map<string, Node>)
    ensures forall p :: p in r <==> p in fs && !Under(p, root)
    ensures forall p :: p in r ==> r[p] == fs[p]
  {
    map p | p in fs && !Under(p, root) :: fs[p]
  }

  /** The file system after `source` is renamed to `target`. What lies below
      `source` is not carried over: the model tracks a moved directory, not
      the clone inside it. */
  function MoveTree(fs: map<string, Node>, source: string, target: string): map<string, Node>
  {
    RemoveTree(fs, source)[target := if source in fs then fs[source] else Dir]
  }

  /** `arg` is a `--name=` flag. */
  predicate IsNameFlag(arg: string)
  {
    |arg| >= 7 && arg[..7] == "--name="
  }

  /** The value of the first `--name=` argument, or "" when there is none. */
  function NameFlag(args: Argv): string
  {
    if |args| == 0 then ""
    else if IsNameFlag(args[0]) then args[0][7..]
    else NameFlag(args[1..])
  }

  /** What a successful process does to the world, for the tools whose
      effect later steps rely on: `rm -rf`, `git clone`, and the container
      commands `run`, `network connect`, `stop` and `rm`. */
  function ExecEffect(w: World, dir: string, argv: Argv): World
  {
    if |argv| == 3 && argv[0] == "rm" && argv[1] == "-rf" then
      w.(fs := RemoveTree(w.fs, InDir(dir, argv[2])))
    else if |argv| == 6 && argv[0] == "git" && argv[1] == "clone" then
      w.(fs := w.fs[InDir(dir, argv[5]) := Dir])
    else if |argv| >= 2 && argv[0] == "docker" && argv[1] == "run" && NameFlag(argv) != "" then
      w.(containers := w.containers[NameFlag(argv) := Container(true, false)])
    else if |argv| == 5 && argv[..4] == ["docker", "network", "connect", "kind"] && argv[4] in w.containers then
      w.(containers := w.containers[argv[4] := w.containers[argv[4]].(onKind := true)])
    else if |argv| == 3 && argv[..2] == ["docker", "stop"] && argv[2] in w.containers then
      w.(containers := w.containers[argv[2] := w.containers[argv[2]].(running := false)])
    else if |argv| == 3 && argv[..2] == ["docker", "rm"] then
      w.(containers := w.containers - {argv[2]})
    else
      w
  }

  /** What a successful event does to the world. */
  function Effect(w: World, e: Event): World
  {
    match e
    case Exec(dir, argv) => ExecEffect(w, dir, argv)
    case Mkdir(path, _) => w.(fs := w.fs[path := Dir])
    case MkdirAll(path, _) => if path in w.fs then w else w.(fs := w.fs[path := Dir])
    case Rename(source, target) => w.(fs := MoveTree(w.fs, source, target))
    case RemoveAll(path) => w.(fs := RemoveTree(w.fs, path))
    case WriteFile(path, data, mode) =>
      // the permission bits apply only to a file that is created
      var keep := path in w.fs && w.fs[path].File?;
      w.(fs := w.fs[path := File(data, if keep then w.fs[path].mode else mode)])
    case _ => w
  }

  /** The reply the oracle gives to `e` issued as the next event. */
  function ReplyTo(o: Oracle, m: Machine, e: Event): Reply
  {
    o(|m.trace|, e)
  }

  /** The machine after `e` is issued. */
  function Issue(o: Oracle, m: Machine, e: Event): Machine
  {
    Machine(m.trace + [e], if ReplyTo(o, m, e).ok then Effect(m.world, e) else m.world)
  }

  /** An event whose failure ends the process (`log.Fatalf`, `check(err)`). */
  function Required(o: Oracle, m: Machine, e: Event): After
  {
    After(Issue(o, m, e), if ReplyTo(o, m, e).ok then Ok else Fatal)
  }

  /** An event whose failure is only logged, or discarded. */
  function Tolerated(o: Oracle, m: Machine, e: Event): After
  {
    After(Issue(o, m, e), Ok)
  }

  /** Events issued in order, each fatal on failure: the process stops at
      the first one that fails. */
  function RequiredAll(o: Oracle, m: Machine, es: seq<Event>): After
    decreases |es|
  {
    if es == [] then After(m, Ok)
    else
      var a := Required(o, m, es[0]);
      if a.status != Ok then a else RequiredAll(o, a.m, es[1..])
  }

  /** The events of `es` issued when every failure is fatal: all of them
      and `Ok` when every reply succeeds; otherwise exactly those up to and
      including the first failure, and `Fatal`, the last issued being the
      one that failed. */
  lemma {:induction false} RequiredAllStopsAtFirstFailure(o: Oracle, m: Machine, es: seq<Event>)
    ensures var a := RequiredAll(o, m, es);
      a.status in {Ok, Fatal} &&
      |m.trace| <= |a.m.trace| <= |m.trace| + |es| &&
      a.m.trace == m.trace + es[..|a.m.trace| - |m.trace|] &&
      (forall j :: |m.trace| <= j < |a.m.trace| - 1 ==> o(j, a.m.trace[j]).ok) &&
      (a.status == Ok <==>
         (|a.m.trace| == |m.trace| + |es| &&
          (|es| == 0 || o(|a.m.trace| - 1, a.m.trace[|a.m.trace| - 1]).ok))) &&
      (a.status == Fatal ==> |a.m.trace| > |m.trace| && !o(|a.m.trace| - 1, a.m.trace[|a.m.trace| - 1]).ok)
    decreases |es|
  {
    if es != [] {
      var first := Required(o, m, es[0]);
      if first.status == Ok {
        RequiredAllStopsAtFirstFailure(o, first.m, es[1..]);
        var a := RequiredAll(o, first.m, es[1..]);
        var n := |a.m.trace| - |first.m.trace|;
        assert es[..n + 1] == [es[0]] + es[1..][..n];
      }
    }
  }

  /** Issuing `[e] + es` is issuing `e`, then `es` unless `e` failed. */
  lemma RequiredAllCons(o: Oracle, m: Machine, e: Event, es: seq<Event>)
    ensures RequiredAll(o, m, [e] + es) ==
      (var a := Required(o, m, e); if a.status != Ok then a else RequiredAll(o, a.m, es))
  {
    assert ([e] + es)[1..] == es;
  }

  /** Issuing `xs + ys` is issuing `xs`, then `ys` unless `xs` stopped. */
  lemma {:induction false} RequiredAllAppend(o: Oracle, m: Machine, xs: seq<Event>, ys: seq<Event>)
    ensures RequiredAll(o, m, xs + ys) ==
      (var a := RequiredAll(o, m, xs); if a.status != Ok then a else RequiredAll(o, a.m, ys))
    decreases |xs|
  {
    if xs == [] {
      assert xs + ys == ys;
    } else {
      assert xs + ys == [xs[0]] + (xs[1..] + ys);
      RequiredAllCons(o, m, xs[0], xs[1..] + ys);
      assert xs == [xs[0]] + xs[1..];
      RequiredAllCons(o, m, xs[0], xs[1..]);
      var first := Required(o, m, xs[0]);
      if first.status == Ok {
        RequiredAllAppend(o, first.m, xs[1..], ys);
      }
    }
  }

  /** The executing environment: the trace of issued events and the current
      world, both updated in place as the program runs. */
  class Host {
    const oracle: Oracle
    var trace: seq<Event>
    var world: World

    constructor (oracle: Oracle, world: World)
      ensures this.oracle == oracle && this.world == world && trace == []
    {
      this.oracle := oracle;
      this.world := world;
      trace := [];
    }

    function State(): Machine
      reads this
    {
      Machine(trace, world)
    }

    /** Issue one event: it joins the trace, its reply is the oracle's, and
        on success its effect is applied to the world. */
    method Exec(e: Event) returns (r: Reply)
      modifies this
      ensures r == ReplyTo(oracle, old(State()), e)
      ensures State() == Issue(oracle, old(State()), e)
    {
      r := oracle(|trace|, e);
      if r.ok {
        world := Effect(world, e);
      }
      trace := trace + [e];
    }

    /** Issue an event whose failure is fatal. */
    method Require(e: Event) returns (s: Status)
      modifies this
      ensures After(State(), s) == Required(oracle, old(State()), e)
    {
      var r := Exec(e);
      s := if r.ok then Ok else Fatal;
    }

    /** Issue an event whose failure is only logged or discarded. */
    method Tolerate(e: Event)
      modifies this
      ensures After(State(), Ok) == Tolerated(oracle, old(State()), e)
    {
      var _ := Exec(e);
    }
  }
}
