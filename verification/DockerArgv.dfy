/** Taking the stdin flag off a `docker exec` command prefix, and putting it on
    (tools/cli.py:35-121). */
module DockerArgv {

  datatype Option<+T> = None | Some(value: T)

  type Argv = seq<string>

  /** Does the program name stand for docker (`Path(p).stem.lower() == 'docker'`)? */
  type IsDocker = string -> bool

  predicate TakesValue(option: string) {
    option in ["-e", "--env", "--env-file", "--detach-keys", "-u", "--user", "-w", "--workdir"]
  }

  predicate GlobalTakesValue(option: string) {
    option in ["--context", "--config", "-H", "--host", "--log-level", "--tlscacert", "--tlscert", "--tlskey"]
  }

  predicate Dash(token: string) { token != "" && token[0] == '-' }

  predicate StdinFlag(token: string) { token == "-i" || token == "--interactive" }

  /** `option.startswith('-') and not option.startswith('--') and 'i' in option[1:]`. */
  predicate ShortWithI(token: string) {
    Dash(token) && !(|token| > 1 && token[1] == '-') && 'i' in token[1..]
  }

  // ---------- finding exec ----------

  /** Where `exec` stands, from `i` on: behind the global options. */
  function ExecFrom(base: Argv, i: nat): Option<nat>
    decreases |base| - i
  {
    if i >= |base| then None
    else if GlobalTakesValue(base[i]) then ExecFrom(base, i + 2)
    else if Dash(base[i]) then ExecFrom(base, i + 1)
    else if base[i] == "exec" then Some(i) else None
  }

  function ExecAt(base: Argv, docker: IsDocker): Option<nat> {
    if |base| < 2 || !docker(base[0]) then None else ExecFrom(base, 1)
  }

  lemma {:induction false} ExecInside(base: Argv, i: nat)
    ensures ExecFrom(base, i).Some? ==> i <= ExecFrom(base, i).value < |base|
    decreases |base| - i
  {
    if i < |base| && GlobalTakesValue(base[i]) {
      ExecInside(base, i + 2);
    } else if i < |base| && Dash(base[i]) {
      ExecInside(base, i + 1);
    }
  }

  method DockerExecAt(base: Argv, docker: IsDocker) returns (at: Option<nat>)
    ensures at == ExecAt(base, docker)
    ensures at.Some? ==> 1 <= at.value < |base| && base[at.value] == "exec"
  {
    if |base| < 2 || !docker(base[0]) { return None; }
    var i := 1;
    while i < |base|
      invariant 1 <= i && ExecFrom(base, i) == ExecFrom(base, 1)
    {
      var token := base[i];
      if GlobalTakesValue(token) {
        i := i + 2;
      } else if Dash(token) {
        i := i + 1;
      } else {
        return if token == "exec" then Some(i) else None;
      }
    }
    return None;
  }

  /** What stands behind `exec` has no part in finding it. */
  lemma {:induction false} ExecByPrefix(a: Argv, b: Argv, i: nat, k: nat)
    requires ExecFrom(a, i) == Some(k) && k < |a| && k < |b| && a[..k + 1] == b[..k + 1]
    ensures ExecFrom(b, i) == Some(k)
    decreases |a| - i
  {
    ExecInside(a, i);
    assert a[..k + 1][i] == a[i] && b[..k + 1][i] == b[i];
    if GlobalTakesValue(a[i]) {
      ExecByPrefix(a, b, i + 2, k);
    } else if Dash(a[i]) {
      ExecByPrefix(a, b, i + 1, k);
    }
  }

  lemma {:induction false} SameExec(a: Argv, b: Argv, docker: IsDocker)
    requires ExecAt(a, docker).Some?
    requires var k := ExecAt(a, docker).value; k < |a| && k < |b| && a[..k + 1] == b[..k + 1]
    ensures ExecAt(b, docker) == ExecAt(a, docker)
  {
    var k := ExecAt(a, docker).value;
    ExecInside(a, 1);
    assert a[..k + 1][0] == a[0] && b[..k + 1][0] == b[0];
    ExecByPrefix(a, b, 1, k);
  }

  // ---------- the options of exec ----------

  /** An option between `exec` and the container: alone, or with its value. */
  datatype Opt = Flag(name: string) | Valued(name: string, value: string)

  function Options(rest: Argv): seq<Opt>
    decreases |rest|
  {
    if rest == [] || !Dash(rest[0]) then []
    else if TakesValue(rest[0]) && |rest| > 1 then [Valued(rest[0], rest[1])] + Options(rest[2..])
    else [Flag(rest[0])] + Options(rest[1..])
  }

  /** The container's name and the command inside it. */
  function Container(rest: Argv): Argv
    decreases |rest|
  {
    if rest == [] || !Dash(rest[0]) then rest
    else if TakesValue(rest[0]) && |rest| > 1 then Container(rest[2..])
    else Container(rest[1..])
  }

  /** The words of some options, and `tail` behind them. */
  function Spelled(opts: seq<Opt>, tail: Argv): Argv {
    if opts == [] then tail
    else match opts[0]
      case Flag(n) => [n] + Spelled(opts[1..], tail)
      case Valued(n, v) => [n, v] + Spelled(opts[1..], tail)
  }

  /** Options and container are all there is. */
  lemma {:induction false} OptionsThenContainer(rest: Argv)
    ensures Spelled(Options(rest), Container(rest)) == rest
    decreases |rest|
  {
    if rest != [] && Dash(rest[0]) {
      if TakesValue(rest[0]) && |rest| > 1 {
        OptionsThenContainer(rest[2..]);
        assert Options(rest)[1..] == Options(rest[2..]);
        assert rest == [rest[0], rest[1]] + rest[2..];
      } else {
        OptionsThenContainer(rest[1..]);
        assert Options(rest)[1..] == Options(rest[1..]);
        assert rest == [rest[0]] + rest[1..];
      }
    }
  }

  // ---------- dropping ----------

  function Dropped(rest: Argv): Argv
    decreases |rest|
  {
    if rest == [] || !Dash(rest[0]) then rest
    else if StdinFlag(rest[0]) then Dropped(rest[1..])
    else if TakesValue(rest[0]) && |rest| > 1 then [rest[0], rest[1]] + Dropped(rest[2..])
    else [rest[0]] + Dropped(rest[1..])
  }

  function Drop(base: Argv, docker: IsDocker): Argv {
    match ExecAt(base, docker)
    case None => base
    case Some(k) =>
      ExecInside(base, 1);
      base[..k + 1] + Dropped(base[k + 1..])
  }

  method DropStdinFlag(base: Argv, docker: IsDocker) returns (r: Argv)
    ensures r == Drop(base, docker)
  {
    var execAt := DockerExecAt(base, docker);
    if execAt.None? { return base; }
    var k := execAt.value;
    var out := base[..k + 1];
    var i := k + 1;
    ghost var rest := base[i..];
    while i < |base|
      invariant k + 1 <= i <= |base| && rest == base[i..]
      invariant out + Dropped(rest) == base[..k + 1] + Dropped(base[k + 1..])
    {
      var option := base[i];
      assert rest[0] == option && rest[1..] == base[i + 1..];
      if !Dash(option) { break; }
      if StdinFlag(option) {
        i, rest := i + 1, rest[1..];
        continue;
      }
      DropStep(out, rest);
      out := out + [option];
      if TakesValue(option) && i + 1 < |base| {
        assert rest[1] == base[i + 1] && rest[2..] == base[i + 2..];
        out := out + [base[i + 1]];
        i, rest := i + 2, rest[2..];
      } else {
        i, rest := i + 1, rest[1..];
      }
    }
    return out + base[i..];
  }

  lemma {:induction false} DropStep(out: Argv, rest: Argv)
    requires rest != [] && Dash(rest[0]) && !StdinFlag(rest[0])
    ensures if TakesValue(rest[0]) && |rest| > 1
      then out + Dropped(rest) == (out + [rest[0]]) + [rest[1]] + Dropped(rest[2..])
      else out + Dropped(rest) == (out + [rest[0]]) + Dropped(rest[1..])
  {
    if TakesValue(rest[0]) && |rest| > 1 {
      TwoMoved(out, rest[0], rest[1], Dropped(rest[2..]));
    } else {
      OneMoved(out, rest[0], Dropped(rest[1..]));
    }
  }

  lemma {:induction false} OneMoved(out: Argv, a: string, more: Argv)
    ensures out + ([a] + more) == (out + [a]) + more
  {
  }

  lemma {:induction false} TwoMoved(out: Argv, a: string, b: string, more: Argv)
    ensures out + ([a, b] + more) == (out + [a]) + [b] + more
  {
  }

  function WithoutStdin(opts: seq<Opt>): seq<Opt> {
    if opts == [] then []
    else if opts[0].Flag? && StdinFlag(opts[0].name) then WithoutStdin(opts[1..])
    else [opts[0]] + WithoutStdin(opts[1..])
  }

  /** Dropping takes away exactly the options that are a stdin flag: an option's value that
      looks like one stays, and so does everything from the container on. */
  lemma {:induction false} DropsExactly(rest: Argv)
    ensures Options(Dropped(rest)) == WithoutStdin(Options(rest))
    ensures Container(Dropped(rest)) == Container(rest)
    ensures Dropped(rest) == [] && rest != [] ==> StdinFlag(rest[|rest| - 1])
    decreases |rest|
  {
    if rest != [] && Dash(rest[0]) {
      if StdinFlag(rest[0]) {
        DropsExactly(rest[1..]);
        assert Options(rest)[1..] == Options(rest[1..]);
      } else if TakesValue(rest[0]) && |rest| > 1 {
        DropsExactly(rest[2..]);
        var d := Dropped(rest[2..]);
        assert ([rest[0], rest[1]] + d)[2..] == d;
        assert Options(rest)[1..] == Options(rest[2..]);
      } else {
        DropsExactly(rest[1..]);
        var d := Dropped(rest[1..]);
        assert ([rest[0]] + d)[1..] == d;
        assert Options(rest)[1..] == Options(rest[1..]);
        assert TakesValue(rest[0]) ==> rest[1..] == [];
      }
    }
  }

  lemma {:induction false} DroppedTwice(rest: Argv)
    ensures Dropped(Dropped(rest)) == Dropped(rest)
    decreases |rest|
  {
    if rest != [] && Dash(rest[0]) {
      if StdinFlag(rest[0]) {
        DroppedTwice(rest[1..]);
      } else if TakesValue(rest[0]) && |rest| > 1 {
        DroppedTwice(rest[2..]);
        var d := Dropped(rest[2..]);
        assert ([rest[0], rest[1]] + d)[2..] == d;
      } else {
        DroppedTwice(rest[1..]);
        var d := Dropped(rest[1..]);
        assert ([rest[0]] + d)[1..] == d;
        assert TakesValue(rest[0]) ==> rest[1..] == [];
      }
    }
  }

  // ---------- ensuring ----------

  /** The scan of `_ensure_stdin_flag` finds an option it takes for a stdin flag. */
  predicate HasStdin(rest: Argv)
    decreases |rest|
  {
    rest != [] && Dash(rest[0])
    && (StdinFlag(rest[0]) || ShortWithI(rest[0])
        || HasStdin(if TakesValue(rest[0]) then (if |rest| > 1 then rest[2..] else []) else rest[1..]))
  }

  function Ensure(base: Argv, docker: IsDocker): Argv {
    match ExecAt(base, docker)
    case None => base
    case Some(k) =>
      ExecInside(base, 1);
      if HasStdin(base[k + 1..]) then base else base[..k + 1] + ["-i"] + base[k + 1..]
  }

  method EnsureStdinFlag(base: Argv, docker: IsDocker) returns (r: Argv)
    ensures r == Ensure(base, docker)
  {
    var execAt := DockerExecAt(base, docker);
    if execAt.None? { return base; }
    var k := execAt.value;
    var i := k + 1;
    while i < |base|
      invariant k + 1 <= i
      invariant HasStdin(base[k + 1..]) == (i <= |base| && HasStdin(base[i..]))
    {
      var option := base[i];
      assert base[i..][0] == option && base[i..][1..] == base[i + 1..];
      if !Dash(option) { break; }
      if StdinFlag(option) { return base; }
      if ShortWithI(option) { return base; }
      if TakesValue(option) {
        assert i + 1 < |base| ==> base[i..][2..] == base[i + 2..];
        i := i + 2;
      } else {
        i := i + 1;
      }
    }
    return base[..k + 1] + ["-i"] + base[k + 1..];
  }

  // ---------- the two together ----------

  lemma {:induction false} Rejoined(head: Argv, rest: Argv, docker: IsDocker)
    requires head != [] && ExecAt(head + rest, docker) == Some(|head| - 1)
    ensures Drop(head + rest, docker) == head + Dropped(rest)
    ensures Ensure(head + rest, docker) == if HasStdin(rest) then head + rest else head + (["-i"] + rest)
    ensures forall more :: ExecAt(head + more, docker) == Some(|head| - 1)
  {
    assert (head + rest)[..|head|] == head && (head + rest)[|head|..] == rest;
    assert (head + ["-i"]) + rest == head + (["-i"] + rest);
    forall more
      ensures ExecAt(head + more, docker) == Some(|head| - 1)
    {
      assert (head + more)[..|head|] == head;
      SameExec(head + rest, head + more, docker);
    }
  }

  lemma {:induction false} SplitAtExec(base: Argv, docker: IsDocker) returns (head: Argv, rest: Argv)
    requires ExecAt(base, docker).Some?
    ensures head != [] && base == head + rest && ExecAt(base, docker) == Some(|head| - 1)
  {
    ExecInside(base, 1);
    var k := ExecAt(base, docker).value;
    head, rest := base[..k + 1], base[k + 1..];
  }

  lemma {:induction false} DashI(rest: Argv)
    ensures Dropped(["-i"] + rest) == Dropped(rest) && HasStdin(["-i"] + rest)
    ensures Container(["-i"] + rest) == Container(rest) && Options(["-i"] + rest) == [Flag("-i")] + Options(rest)
  {
    assert (["-i"] + rest)[1..] == rest;
  }

  /** For every argument list: dropping undoes ensuring, and each is idempotent. */
  lemma {:induction false} DropUndoesEnsure(base: Argv, docker: IsDocker)
    ensures Drop(Ensure(base, docker), docker) == Drop(base, docker)
    ensures Drop(Drop(base, docker), docker) == Drop(base, docker)
    ensures Ensure(Ensure(base, docker), docker) == Ensure(base, docker)
  {
    if ExecAt(base, docker).Some? {
      var head, rest := SplitAtExec(base, docker);
      Rejoined(head, rest, docker);
      Rejoined(head, ["-i"] + rest, docker);
      Rejoined(head, Dropped(rest), docker);
      DashI(rest);
      DroppedTwice(rest);
    }
  }

  /** What a list says behind its `exec`; all of it, if there is none. */
  function Behind(base: Argv, docker: IsDocker): Argv {
    match ExecAt(base, docker)
    case None => base
    case Some(k) =>
      ExecInside(base, 1);
      base[k + 1..]
  }

  /** Neither touches anything but stdin flags: not the words up to `exec`, not the container
      and its command, not another option or any value; and a list that is no `docker exec`
      is returned as it is. */
  lemma {:induction false} OnlyStdinChanges(base: Argv, docker: IsDocker)
    ensures ExecAt(base, docker).None? ==> Drop(base, docker) == Ensure(base, docker) == base
    ensures ExecAt(Drop(base, docker), docker) == ExecAt(Ensure(base, docker), docker) == ExecAt(base, docker)
    ensures ExecAt(base, docker).Some? ==>
      var d, e, b := Behind(Drop(base, docker), docker), Behind(Ensure(base, docker), docker), Behind(base, docker);
      && Container(d) == Container(e) == Container(b)
      && Options(d) == WithoutStdin(Options(b))
      && Options(e) == (if HasStdin(b) then Options(b) else [Flag("-i")] + Options(b))
  {
    if ExecAt(base, docker).Some? {
      var head, rest := SplitAtExec(base, docker);
      Rejoined(head, rest, docker);
      Rejoined(head, ["-i"] + rest, docker);
      Rejoined(head, Dropped(rest), docker);
      DashI(rest);
      DropsExactly(rest);
      assert (head + rest)[|head|..] == rest;
      assert (head + (["-i"] + rest))[|head|..] == ["-i"] + rest;
      assert (head + Dropped(rest))[|head|..] == Dropped(rest);
    }
  }

  // ---------- what ensuring ensures ----------

  /** The texts Docker reads as true; any other is false or refused. */
  predicate TrueText(v: string) { v in ["1", "t", "T", "TRUE", "true", "True"] }

  /** What a cluster of short options says about stdin: `i` opens it, `i=` sets it to the
      text behind; a letter that takes a value takes the rest of the cluster. */
  function ClusterSetting(letters: string): Option<bool> {
    if letters == "" || letters[0] in "euw" then None
    else if |letters| > 1 && letters[1] == '=' then
      (if letters[0] == 'i' then Some(TrueText(letters[2..])) else None)
    else
      var later := ClusterSetting(letters[1..]);
      if letters[0] == 'i' && later == None then Some(true) else later
  }

  const LONG := "--interactive="

  function Setting(o: Opt): Option<bool> {
    if o.Valued? then None
    else if StdinFlag(o.name) then Some(true)
    else if LONG <= o.name then Some(TrueText(o.name[|LONG|..]))
    else if Dash(o.name) && !(|o.name| > 1 && o.name[1] == '-') then ClusterSetting(o.name[1..])
    else None
  }

  /** Docker takes the last word on stdin; without one it is closed. */
  function LastSetting(opts: seq<Opt>): Option<bool> {
    if opts == [] then None
    else if LastSetting(opts[1..]) != None then LastSetting(opts[1..])
    else Setting(opts[0])
  }

  predicate Open(opts: seq<Opt>) { LastSetting(opts) == Some(true) }

  /** After ensuring, stdin is open exactly if it was before, or if nothing was said about
      it and no option was taken for a stdin flag: a short option with its value attached
      and an `i` in that value is. */
  lemma {:induction false} EnsureOpensExactly(base: Argv, docker: IsDocker)
    requires ExecAt(base, docker).Some?
    ensures var b := Behind(base, docker);
      Open(Options(Behind(Ensure(base, docker), docker))) <==>
        Open(Options(b)) || (!HasStdin(b) && LastSetting(Options(b)) == None)
  {
    OnlyStdinChanges(base, docker);
    var opts := Options(Behind(base, docker));
    assert ([Flag("-i")] + opts)[1..] == opts;
    assert Setting(Flag("-i")) == Some(true);
  }

  lemma {:induction false} AttachedValueMistaken(docker: IsDocker)
    requires docker("docker")
    ensures var base := ["docker", "exec", "-uadmin", "c"];
      Ensure(base, docker) == base && ExecAt(base, docker) == Some(1) && !Open(Options(base[2..]))
  {
    var base := ["docker", "exec", "-uadmin", "c"];
    var rest := base[2..];
    assert rest == ["-uadmin", "c"];
    assert "-uadmin"[1..] == "uadmin";
    assert "uadmin"[4] == 'i';
    assert rest[1..] == ["c"];
    assert Options(rest) == [Flag("-uadmin")] + Options(["c"]);
    var opts := [Flag("-uadmin")];
    assert Options(rest) == opts && opts[1..] == [];
    assert !(LONG <= "-uadmin") by {
      assert LONG[1] != "-uadmin"[1];
    }
    assert ClusterSetting("uadmin") == None;
    assert Setting(opts[0]) == None && LastSetting(opts[1..]) == None;
  }

  // ---------- by name ----------

  /** Options of `docker exec` that take a value. */
  predicate NamesValue(o: string) {
    || o == "-e" || o == "--env" || o == "--env-file" || o == "--detach-keys"
    || o == "-u" || o == "--user" || o == "-w" || o == "--workdir"
  }

  /** Options of `docker` itself that take a value. */
  predicate NamesGlobal(o: string) {
    || o == "--context" || o == "--config" || o == "-H" || o == "--host"
    || o == "--log-level" || o == "--tlscacert" || o == "--tlscert" || o == "--tlskey"
  }

  predicate IsStdin(o: Opt) { o.Flag? && (o.name == "-i" || o.name == "--interactive") }

  predicate OptionName(o: string) { |o| > 0 && o[0] == '-' }

  /** `ts` are global options, those that take a value with their value. */
  predicate Globals(ts: Argv)
    decreases |ts|
  {
    || ts == []
    || (NamesGlobal(ts[0]) && |ts| >= 2 && Globals(ts[2..]))
    || (OptionName(ts[0]) && !NamesGlobal(ts[0]) && Globals(ts[1..]))
  }

  lemma {:induction false} NamesAre(o: string)
    ensures TakesValue(o) <==> NamesValue(o)
    ensures GlobalTakesValue(o) <==> NamesGlobal(o)
    ensures StdinFlag(o) <==> o == "-i" || o == "--interactive"
  {
  }

  lemma {:induction false} ExecFromIs(base: Argv, i: nat, k: nat)
    requires i <= |base|
    ensures ExecFrom(base, i) == Some(k) <==> i <= k < |base| && base[k] == "exec" && Globals(base[i..k])
    decreases |base| - i
  {
    if i < |base| {
      NamesAre(base[i]);
      if GlobalTakesValue(base[i]) {
        if i + 2 <= |base| {
          ExecFromIs(base, i + 2, k);
        }
      } else if Dash(base[i]) {
        ExecFromIs(base, i + 1, k);
      }
      if i < k < |base| {
        assert base[i..k][0] == base[i] && base[i..k][1..] == base[i + 1..k];
        assert i + 2 <= k ==> base[i..k][2..] == base[i + 2..k];
      }
      assert k == i ==> base[i..k] == [];
    }
  }

  /** `exec` is found exactly if only global options stand between it and the program. */
  lemma {:induction false} ExecByName(base: Argv, docker: IsDocker, k: nat)
    ensures ExecAt(base, docker) == Some(k) <==>
      |base| >= 2 && docker(base[0]) && 1 <= k < |base| && base[k] == "exec" && Globals(base[1..k])
  {
    if |base| >= 2 {
      ExecFromIs(base, 1, k);
    }
  }

  /** An option has a value behind it exactly if its name takes one, the last word aside. */
  lemma {:induction false} OptionsByName(rest: Argv)
    ensures forall o :: o in Options(rest) ==> OptionName(o.name) && (o.Valued? ==> NamesValue(o.name))
    ensures forall o :: o in Options(rest) && o.Flag? && NamesValue(o.name) ==> rest[|rest| - 1] == o.name
    decreases |rest|
  {
    if rest != [] && Dash(rest[0]) {
      NamesAre(rest[0]);
      if TakesValue(rest[0]) && |rest| > 1 {
        OptionsByName(rest[2..]);
        LastOf(rest, 2);
      } else {
        OptionsByName(rest[1..]);
        LastOf(rest, 1);
      }
    }
  }

  lemma {:induction false} LastOf(rest: Argv, n: nat)
    requires n <= |rest|
    ensures n < |rest| ==> rest[n..][|rest[n..]| - 1] == rest[|rest| - 1]
  {
  }

  /** Dropping leaves the options that are no stdin flag, and no other. */
  lemma {:induction false} DropsByName(rest: Argv, o: Opt)
    ensures o in Options(Dropped(rest)) <==> o in Options(rest) && !IsStdin(o)
  {
    DropsExactly(rest);
    OnlyStdinGone(Options(rest), o);
  }

  lemma {:induction false} OnlyStdinGone(opts: seq<Opt>, o: Opt)
    ensures o in WithoutStdin(opts) <==> o in opts && !IsStdin(o)
  {
    if opts != [] {
      NamesAre(opts[0].name);
      OnlyStdinGone(opts[1..], o);
    }
  }

  /** The word is taken for a stdin flag: by name, or for a letter `i` behind one dash. */
  predicate TakenForStdin(name: string) {
    || name == "-i" || name == "--interactive"
    || (OptionName(name) && !(|name| > 1 && name[1] == '-') && exists k :: 1 <= k < |name| && name[k] == 'i')
  }

  lemma {:induction false} TakenIs(name: string)
    ensures StdinFlag(name) || ShortWithI(name) <==> TakenForStdin(name)
  {
    NamesAre(name);
    if OptionName(name) {
      assert forall k :: 1 <= k < |name| ==> name[k] == name[1..][k - 1];
      if 'i' in name[1..] {
        var j :| 0 <= j < |name[1..]| && name[1..][j] == 'i';
        assert name[j + 1] == 'i';
      }
    }
  }

  lemma {:induction false} HasStdinIs(rest: Argv)
    ensures HasStdin(rest) <==> exists o :: o in Options(rest) && TakenForStdin(o.name)
    decreases |rest|
  {
    if rest != [] && Dash(rest[0]) {
      TakenIs(rest[0]);
      var more := if TakesValue(rest[0]) then (if |rest| > 1 then rest[2..] else []) else rest[1..];
      HasStdinIs(more);
      var first := if TakesValue(rest[0]) && |rest| > 1 then Valued(rest[0], rest[1]) else Flag(rest[0]);
      assert Options(rest) == [first] + Options(more);
      assert first in Options(rest) && first.name == rest[0];
    }
  }

  /** The list is left alone exactly if some option is taken for a stdin flag. */
  lemma {:induction false} EnsuresByName(base: Argv, docker: IsDocker)
    requires ExecAt(base, docker).Some?
    ensures Ensure(base, docker) == base <==> exists o :: o in Options(Behind(base, docker)) && TakenForStdin(o.name)
  {
    ExecInside(base, 1);
    HasStdinIs(Behind(base, docker));
    if !HasStdin(Behind(base, docker)) {
      assert |Ensure(base, docker)| == |base| + 1;
    }
  }
}
