/**
 The linear walk over an installer's instructions: variables, the current output directory, the
 extracted tree and the counters. Branches are counted, never followed.
 */
module NsisWalk {
  import opened Common
  import opened Bytes
  import opened NsisStrings
  import opened NsisPaths
  import opened FileTree

  const RET := 1
  const JMP := 2
  const CALL := 5
  const SET_ATTRIBUTES := 10
  const CREATE_DIR := 11
  const IF_FILE_EXISTS := 12
  const IF_FLAG := 14
  const RENAME := 16
  const EXTRACT_FILE := 20
  const DELETE_FILE := 21
  const MESSAGE_BOX := 22
  const RM_DIR := 23
  const ASSIGN_VAR := 25
  const STR_CMP := 26
  const INT_CMP := 28
  const SHELL_EXEC := 40
  const EXECUTE := 41
  const REGISTER_DLL := 44
  const CREATE_SHORTCUT := 45
  const COPY_FILES := 46
  const REBOOT := 47
  const WRITE_INI := 48
  const READ_INI_STR := 49
  const DEL_REG := 50
  const WRITE_REG := 51
  const READ_REG_STR := 52
  const WRITE_UNINSTALLER := 62
  const LAST_OPCODE := 71
  const REG_DWORD := 4

  datatype InstrRaw = Instr(op: int, p: seq<int>)
  type Instr = i: InstrRaw | |i.p| == 6 witness InstrRaw.Instr(0, [0, 0, 0, 0, 0, 0])

  /** Every opcode up to the last one NSIS 3 defines has a handler. */
  predicate Handled(op: int) { 1 <= op <= LAST_OPCODE }

  predicate IsControl(op: int)
  {
    op == RET || op == JMP || op == CALL || op == IF_FILE_EXISTS || op == IF_FLAG || op == STR_CMP || op == INT_CMP
  }

  /** What the walk only reads: the decompressed archive, its codec, the strings, the output directory. */
  datatype Env = Env(dec: seq<byte>, dataBase: nat, inflate: seq<byte> -> Option<seq<byte>>,
                     resolve: int -> string, outDir: Path)

  /** A recorded action before it is formatted: numbers as they are, strings with variables filled in. */
  datatype MetaLine = MetaLine(op: int, nums: seq<int>, strs: seq<string>)

  datatype Counters = Counters(files: nat, wanted: nat, known: nat, control: nat, unknown: nat)

  datatype WState =
    WState(vars: map<string, string>, varKeys: seq<string>, curDir: Path, tree: Tree, n: Counters, meta: seq<MetaLine>)

  // ---------------------------------------------------------------- variables

  function Chars(b: seq<byte>): (s: string)
    ensures |s| == |b|
  {
    seq(|b|, i requires 0 <= i < |b| => (b[i] as int) as char)
  }

  function VarKey(idx: int): (s: string)
    ensures s != ""
  {
    Chars(VarName(idx))
  }

  /** Every occurrence, left to right, none overlapping. */
  function ReplaceAll(s: string, k: string, v: string): string
    requires k != ""
  {
    if |s| < |k| then s
    else if s[..|k|] == k then v + ReplaceAll(s[|k|..], k, v)
    else [s[0]] + ReplaceAll(s[1..], k, v)
  }

  predicate KeysOk(vars: map<string, string>, keys: seq<string>)
  {
    && (forall i :: 0 <= i < |keys| ==> keys[i] in vars && keys[i] != "")
    && (forall k :: k in vars ==> k in keys)
    && (forall i, j :: 0 <= i < j < |keys| ==> keys[i] != keys[j] && |keys[i]| >= |keys[j]|)
  }

  function Substitute(s: string, vars: map<string, string>, keys: seq<string>): string
    requires forall i :: 0 <= i < |keys| ==> keys[i] in vars && keys[i] != ""
    decreases |keys|
  {
    if |keys| == 0 then s else Substitute(ReplaceAll(s, keys[0], vars[keys[0]]), vars, keys[1..])
  }

  /** A string without a dollar sign is used as it is. */
  function StrOf(env: Env, st: WState, off: int): string
    requires KeysOk(st.vars, st.varKeys)
  {
    var s := env.resolve(off);
    if '$' !in s then s else Substitute(s, st.vars, st.varKeys)
  }

  /** Longest first; a new name goes behind those as long as itself. */
  function InsertKey(keys: seq<string>, k: string): (r: seq<string>)
    ensures |r| == |keys| + 1
  {
    if |keys| == 0 then [k]
    else if |keys[|keys| - 1]| >= |k| then keys + [k]
    else InsertKey(keys[..|keys| - 1], k) + [keys[|keys| - 1]]
  }

  function SetVar(st: WState, idx: int, val: string): WState
  {
    var name := VarKey(idx);
    var keys := if name in st.vars then st.varKeys else InsertKey(st.varKeys, name);
    st.(varKeys := keys, vars := st.vars[name := val])
  }

  lemma {:induction false} InsertKeepsOrder(keys: seq<string>, k: string)
    requires forall i, j :: 0 <= i < j < |keys| ==> keys[i] != keys[j] && |keys[i]| >= |keys[j]|
    requires k !in keys
    ensures var r := InsertKey(keys, k);
            && (forall i, j :: 0 <= i < j < |r| ==> r[i] != r[j] && |r[i]| >= |r[j]|)
            && (forall x :: x in r <==> x == k || x in keys)
    decreases |keys|
  {
    if |keys| > 0 && |keys[|keys| - 1]| < |k| {
      var init, last := keys[..|keys| - 1], keys[|keys| - 1];
      InsertKeepsOrder(init, k);
      var r := InsertKey(init, k);
      assert keys == init + [last];
      forall i | 0 <= i < |r| ensures r[i] != last && |r[i]| >= |last| {
        if r[i] != k {
          assert r[i] in init;
        }
      }
      assert InsertKey(keys, k) == r + [last];
    }
  }

  lemma SetVarKeepsKeys(st: WState, idx: int, val: string)
    requires KeysOk(st.vars, st.varKeys)
    ensures var st1 := SetVar(st, idx, val); KeysOk(st1.vars, st1.varKeys)
  {
    hide KeysOk, VarKey, InsertKey;
    if VarKey(idx) in st.vars {
      KnownKeyKept(st.vars, st.varKeys, VarKey(idx), val);
    } else {
      NewKeyKept(st.vars, st.varKeys, VarKey(idx), val);
    }
  }

  lemma KnownKeyKept(vars: map<string, string>, keys: seq<string>, name: string, val: string)
    requires KeysOk(vars, keys) && name in vars
    ensures KeysOk(vars[name := val], keys)
  {
  }

  lemma NewKeyKept(vars: map<string, string>, keys: seq<string>, name: string, val: string)
    requires KeysOk(vars, keys) && name !in vars && name != ""
    ensures KeysOk(vars[name := val], InsertKey(keys, name))
  {
    hide InsertKey;
    assert name !in keys;
    InsertKeepsOrder(keys, name);
    var r := InsertKey(keys, name);
    forall i | 0 <= i < |r| ensures r[i] in vars[name := val] && r[i] != "" {
      assert r[i] in r;
    }
  }

  // ---------------------------------------------------------------- paths and data

  predicate IsRooted(name: string)
  {
    name != "" && (name[0] == '$' || name[0] == '\\' || name[0] == '/' || HasDrive(name))
  }

  /** Where a named file goes: strictly below the output directory, or nowhere. */
  function Dst(outDir: Path, curDir: Path, name: string): (r: Option<Path>)
    requires PlainPath(outDir)
    ensures r.Some? ==> Below(outDir, r.value) && PlainPath(r.value)
  {
    if name == "" then None
    else
      var rel := SanitizeRel(if IsRooted(name) then name else JoinText(curDir, name));
      if rel == [] then None
      else
        SafeJoinKeepsSanitized(outDir, rel);
        SafeJoin(outDir, rel)
  }

  const HIGH_BIT: nat := 0x8000_0000

  /** The bytes of the data record at pos, inflated if the record is compressed by itself. */
  function Payload(env: Env, pos: int): Option<seq<byte>>
  {
    if pos < 0 || env.dataBase + pos + 4 > |env.dec| then None
    else
      var abs := env.dataBase + pos;
      var raw := FromLE(env.dec[abs..abs + 4]);
      var size := raw % HIGH_BIT;
      if size == 0 || abs + 4 + size > |env.dec| then None
      else
        var body := env.dec[abs + 4..abs + 4 + size];
        if raw >= HIGH_BIT then env.inflate(body) else Some(body)
  }

  function WriteData(env: Env, tree: Tree, pos: int, dst: Path): (r: (bool, Tree))
  {
    match Payload(env, pos)
    case None => (false, tree)
    case Some(bytes) =>
      var (made, t) := MkdirAll(tree, Parent(dst));
      if made then WriteFile(t, dst, bytes) else (false, t)
  }

  // ---------------------------------------------------------------- one instruction

  function CreateDirStep(env: Env, st: WState, i: Instr): WState
    requires KeysOk(st.vars, st.varKeys) && PlainPath(env.outDir)
  {
    var dir := SanitizeRel(StrOf(env, st, i.p[0]));
    var st1 := if i.p[1] != 0 then st.(curDir := dir) else st;
    if dir == [] then st1
    else
      match SafeJoin(env.outDir, dir)
      case None => st1
      case Some(path) => st1.(tree := MkdirAll(st1.tree, path).1)
  }

  /** An extracted file and a written uninstaller differ in where their name and data are, and in the note left. */
  function ExtractStep(env: Env, st: WState, name: string, pos: int, note: bool): WState
    requires PlainPath(env.outDir)
  {
    match Dst(env.outDir, st.curDir, name)
    case None => st
    case Some(dst) =>
      var (ok, t) := WriteData(env, st.tree, pos, dst);
      var n := st.n.(wanted := st.n.wanted + 1, files := if ok then st.n.files + 1 else st.n.files);
      var meta := if ok && note then st.meta + [MetaLine(WRITE_UNINSTALLER, [], dst)] else st.meta;
      st.(tree := t, n := n, meta := meta)
  }

  function RenameStep(env: Env, st: WState, i: Instr): WState
    requires KeysOk(st.vars, st.varKeys) && PlainPath(env.outDir)
  {
    match (Dst(env.outDir, st.curDir, StrOf(env, st, i.p[0])), Dst(env.outDir, st.curDir, StrOf(env, st, i.p[1])))
    case (Some(from), Some(to)) =>
      var (made, t) := MkdirAll(st.tree, Parent(to));
      st.(tree := if made then Rename(t, from, to).1 else t)
    case _ => st
  }

  function DeleteStep(env: Env, st: WState, i: Instr): WState
    requires KeysOk(st.vars, st.varKeys) && PlainPath(env.outDir)
  {
    match Dst(env.outDir, st.curDir, StrOf(env, st, i.p[0]))
    case Some(path) => st.(tree := if i.op == RM_DIR then RemoveAll(st.tree, path) else Remove(st.tree, path))
    case None => st
  }

  /** The recorded actions; everything else that is handled changes nothing but the counters. */
  function MetaOf(env: Env, st: WState, i: Instr): seq<MetaLine>
    requires KeysOk(st.vars, st.varKeys)
  {
    var p := i.p;
    if i.op == WRITE_REG then
      if p[4] == REG_DWORD then
        [MetaLine(i.op, [p[0], p[3]], [StrOf(env, st, p[1]), StrOf(env, st, p[2])])]
      else [MetaLine(i.op, [p[0]], [StrOf(env, st, p[1]), StrOf(env, st, p[2]), StrOf(env, st, p[3])])]
    else if i.op == DEL_REG then [MetaLine(i.op, [p[0]], [StrOf(env, st, p[1]), StrOf(env, st, p[2])])]
    else if i.op == CREATE_SHORTCUT then
      [MetaLine(i.op, [], [StrOf(env, st, p[0]), StrOf(env, st, p[1]), StrOf(env, st, p[2]), StrOf(env, st, p[3])])]
    else if i.op == REGISTER_DLL || i.op == COPY_FILES then
      [MetaLine(i.op, [], [StrOf(env, st, p[0]), StrOf(env, st, p[1])])]
    else if i.op == SHELL_EXEC then
      [MetaLine(i.op, [], [StrOf(env, st, p[0]), StrOf(env, st, p[1]), StrOf(env, st, p[2])])]
    else if i.op == EXECUTE then [MetaLine(i.op, [], [StrOf(env, st, p[0])])]
    else if i.op == WRITE_INI then
      [MetaLine(i.op, [], [StrOf(env, st, p[3]), StrOf(env, st, p[0]), StrOf(env, st, p[1]), StrOf(env, st, p[2])])]
    else if i.op == READ_INI_STR then
      [MetaLine(i.op, [], [StrOf(env, st, p[3]), StrOf(env, st, p[1]), StrOf(env, st, p[2]), VarKey(p[0])])]
    else if i.op == READ_REG_STR then
      [MetaLine(i.op, [p[1]], [StrOf(env, st, p[2]), StrOf(env, st, p[3]), VarKey(p[0])])]
    else if i.op == SET_ATTRIBUTES then [MetaLine(i.op, [p[1]], [StrOf(env, st, p[0])])]
    else if i.op == MESSAGE_BOX then [MetaLine(i.op, [], [StrOf(env, st, p[1])])]
    else if i.op == REBOOT then [MetaLine(i.op, [], [])]
    else []
  }

  function Handle(env: Env, st: WState, i: Instr): WState
    requires KeysOk(st.vars, st.varKeys) && PlainPath(env.outDir)
  {
    if i.op == CREATE_DIR then CreateDirStep(env, st, i)
    else if i.op == EXTRACT_FILE then ExtractStep(env, st, StrOf(env, st, i.p[1]), i.p[2], false)
    else if i.op == WRITE_UNINSTALLER then ExtractStep(env, st, StrOf(env, st, i.p[0]), i.p[1], true)
    else if i.op == RENAME then RenameStep(env, st, i)
    else if i.op == DELETE_FILE || i.op == RM_DIR then DeleteStep(env, st, i)
    else if i.op == ASSIGN_VAR then SetVar(st, i.p[0], StrOf(env, st, i.p[1]))
    else if IsControl(i.op) then st.(n := st.n.(control := st.n.control + 1))
    else st.(meta := st.meta + MetaOf(env, st, i))
  }

  function Step(env: Env, st: WState, i: Instr): WState
    requires KeysOk(st.vars, st.varKeys) && PlainPath(env.outDir)
  {
    if !Handled(i.op) then st.(n := st.n.(unknown := st.n.unknown + 1))
    else Handle(env, st.(n := st.n.(known := st.n.known + 1)), i)
  }

  // ---------------------------------------------------------------- what every instruction keeps

  /** The invariant of the walk, relative to the tree it started from and the steps taken. */
  ghost predicate Inv(env: Env, start: Tree, steps: nat, st: WState)
  {
    && PlainPath(env.outDir) && Rooted(start, env.outDir)
    && KeysOk(st.vars, st.varKeys)
    && PlainPath(st.curDir)
    && OnlyBelow(env.outDir, start, st.tree)
    && st.n.known + st.n.unknown == steps
    && st.n.control <= st.n.known
    && st.n.files <= st.n.wanted <= st.n.known
  }

  lemma CreateDirKeeps(env: Env, start: Tree, st: WState, i: Instr)
    requires PlainPath(env.outDir) && Rooted(start, env.outDir) && KeysOk(st.vars, st.varKeys)
    requires PlainPath(st.curDir) && OnlyBelow(env.outDir, start, st.tree)
    ensures var st1 := CreateDirStep(env, st, i);
            && OnlyBelow(env.outDir, start, st1.tree) && PlainPath(st1.curDir)
            && st1.n == st.n && st1.vars == st.vars && st1.varKeys == st.varKeys
  {
    hide OnlyBelow, Rooted, StrOf, MkdirAll, SafeJoin, SanitizeRel;
    var dir := SanitizeRel(StrOf(env, st, i.p[0]));
    SafeJoinKeepsSanitized(env.outDir, dir);
    RootedStays(env.outDir, start, st.tree);
    MkdirAllContained(st.tree, env.outDir, env.outDir + dir);
    OnlyBelowTrans(env.outDir, start, st.tree, MkdirAll(st.tree, env.outDir + dir).1);
  }

  lemma WriteDataContained(env: Env, tree: Tree, pos: int, dst: Path)
    requires Rooted(tree, env.outDir) && Below(env.outDir, dst)
    ensures OnlyBelow(env.outDir, tree, WriteData(env, tree, pos, dst).1)
  {
    hide Rooted;
    assert env.outDir <= Parent(dst);
    MkdirAllContained(tree, env.outDir, Parent(dst));
    var t := MkdirAll(tree, Parent(dst)).1;
    if Payload(env, pos).Some? {
      WriteContained(t, env.outDir, dst, Payload(env, pos).value);
      OnlyBelowTrans(env.outDir, tree, t, WriteFile(t, dst, Payload(env, pos).value).1);
    }
  }

  lemma ExtractKeeps(env: Env, start: Tree, st: WState, name: string, pos: int, note: bool)
    requires PlainPath(env.outDir) && Rooted(start, env.outDir) && OnlyBelow(env.outDir, start, st.tree)
    ensures var st1 := ExtractStep(env, st, name, pos, note);
            && OnlyBelow(env.outDir, start, st1.tree) && st1.curDir == st.curDir
            && st1.vars == st.vars && st1.varKeys == st.varKeys
            && st1.n.known == st.n.known && st1.n.unknown == st.n.unknown && st1.n.control == st.n.control
            && (st1.n.files - st.n.files) <= (st1.n.wanted - st.n.wanted) <= 1
  {
    hide OnlyBelow, Rooted;
    var d := Dst(env.outDir, st.curDir, name);
    if d.Some? {
      RootedStays(env.outDir, start, st.tree);
      WriteDataContained(env, st.tree, pos, d.value);
      OnlyBelowTrans(env.outDir, start, st.tree, WriteData(env, st.tree, pos, d.value).1);
    }
  }

  lemma RenameKeeps(env: Env, start: Tree, st: WState, i: Instr)
    requires PlainPath(env.outDir) && Rooted(start, env.outDir) && OnlyBelow(env.outDir, start, st.tree)
    requires KeysOk(st.vars, st.varKeys)
    ensures OnlyBelow(env.outDir, start, RenameStep(env, st, i).tree)
    ensures RenameStep(env, st, i) == st.(tree := RenameStep(env, st, i).tree)
  {
    hide OnlyBelow, Rooted, Rename, MkdirAll, KeysOk, PlainPath, StrOf, Dst;
    var from := Dst(env.outDir, st.curDir, StrOf(env, st, i.p[0]));
    var to := Dst(env.outDir, st.curDir, StrOf(env, st, i.p[1]));
    if from.Some? && to.Some? {
      RootedStays(env.outDir, start, st.tree);
      assert env.outDir <= Parent(to.value);
      MkdirAllContained(st.tree, env.outDir, Parent(to.value));
      var t := MkdirAll(st.tree, Parent(to.value)).1;
      OnlyBelowTrans(env.outDir, start, st.tree, t);
      RenameContained(t, env.outDir, from.value, to.value);
      OnlyBelowTrans(env.outDir, start, t, Rename(t, from.value, to.value).1);
    }
  }

  lemma DeleteKeeps(env: Env, start: Tree, st: WState, i: Instr)
    requires PlainPath(env.outDir) && OnlyBelow(env.outDir, start, st.tree) && KeysOk(st.vars, st.varKeys)
    ensures OnlyBelow(env.outDir, start, DeleteStep(env, st, i).tree)
    ensures DeleteStep(env, st, i) == st.(tree := DeleteStep(env, st, i).tree)
  {
    hide OnlyBelow, Remove, RemoveAll;
    var d := Dst(env.outDir, st.curDir, StrOf(env, st, i.p[0]));
    if d.Some? {
      RemoveContained(st.tree, env.outDir, d.value);
      OnlyBelowTrans(env.outDir, start, st.tree, Remove(st.tree, d.value));
      OnlyBelowTrans(env.outDir, start, st.tree, RemoveAll(st.tree, d.value));
    }
  }

  /**
   Whatever the instruction and whatever its strings: nothing outside the output directory, nor the
   directory itself, changes, and the counters stay consistent.
   */
  lemma StepKeepsInv(env: Env, start: Tree, steps: nat, st: WState, i: Instr)
    requires Inv(env, start, steps, st)
    ensures Inv(env, start, steps + 1, Step(env, st, i))
  {
    hide OnlyBelow, Rooted, KeysOk, PlainPath, CreateDirStep, ExtractStep, RenameStep, DeleteStep, SetVar, MetaOf,
         StrOf;
    if Handled(i.op) {
      var st0 := st.(n := st.n.(known := st.n.known + 1));
      if i.op == CREATE_DIR {
        CreateDirKeeps(env, start, st0, i);
      } else if i.op == EXTRACT_FILE {
        ExtractKeeps(env, start, st0, StrOf(env, st0, i.p[1]), i.p[2], false);
      } else if i.op == WRITE_UNINSTALLER {
        ExtractKeeps(env, start, st0, StrOf(env, st0, i.p[0]), i.p[1], true);
      } else if i.op == RENAME {
        RenameKeeps(env, start, st0, i);
      } else if i.op == DELETE_FILE || i.op == RM_DIR {
        DeleteKeeps(env, start, st0, i);
      } else if i.op == ASSIGN_VAR {
        SetVarKeepsKeys(st0, i.p[0], StrOf(env, st0, i.p[1]));
        SetVarOnly(st0, i.p[0], StrOf(env, st0, i.p[1]));
      }
    }
  }

  lemma SetVarOnly(st: WState, idx: int, val: string)
    ensures var st1 := SetVar(st, idx, val);
            st1 == st.(vars := st1.vars, varKeys := st1.varKeys)
  {
  }

  function Run(env: Env, st: WState, prog: seq<Instr>): WState
    requires KeysOk(st.vars, st.varKeys) && PlainPath(env.outDir)
    decreases |prog|
  {
    if |prog| == 0 then st
    else
      StepKeepsKeys(env, st, prog[0]);
      Run(env, Step(env, st, prog[0]), prog[1..])
  }

  lemma StepKeepsKeys(env: Env, st: WState, i: Instr)
    requires KeysOk(st.vars, st.varKeys) && PlainPath(env.outDir)
    ensures var st1 := Step(env, st, i); KeysOk(st1.vars, st1.varKeys)
  {
    hide KeysOk, StrOf, MetaOf, WriteData, Dst, SanitizeRel, SafeJoin, MkdirAll, Rename, Remove, RemoveAll, SetVar;
    if Handled(i.op) && i.op == ASSIGN_VAR {
      var st0 := st.(n := st.n.(known := st.n.known + 1));
      SetVarKeepsKeys(st0, i.p[0], StrOf(env, st0, i.p[1]));
    }
  }

  function Start(tree: Tree): WState
  {
    WState(map[], [], [], tree, Counters(0, 0, 0, 0, 0), [])
  }

  /** The whole program, from a fresh walk: containment and accounting at the end of any run. */
  lemma {:induction false} RunKeepsInv(env: Env, start: Tree, steps: nat, st: WState, prog: seq<Instr>)
    requires Inv(env, start, steps, st)
    ensures Inv(env, start, steps + |prog|, Run(env, st, prog))
    decreases |prog|
  {
    hide Step;
    if |prog| > 0 {
      StepKeepsInv(env, start, steps, st, prog[0]);
      RunKeepsInv(env, start, steps + 1, Step(env, st, prog[0]), prog[1..]);
    }
  }

  lemma StartIsValid(env: Env, tree: Tree)
    requires PlainPath(env.outDir) && Rooted(tree, env.outDir)
    ensures Inv(env, tree, 0, Start(tree))
  {
  }

  // ---------------------------------------------------------------- what becomes of an extracted file

  /** The file an instruction is to write, and where its data record is. */
  function Target(env: Env, st: WState, i: Instr): Option<(Path, int)>
    requires KeysOk(st.vars, st.varKeys) && PlainPath(env.outDir)
  {
    if i.op != EXTRACT_FILE && i.op != WRITE_UNINSTALLER then None
    else
      var k := if i.op == EXTRACT_FILE then 1 else 0;
      match Dst(env.outDir, st.curDir, StrOf(env, st, i.p[k]))
      case None => None
      case Some(d) => Some((d, i.p[k + 1]))
  }

  /** The instruction is to write d, or to move, remove or replace it or a directory above it. */
  predicate Touches(env: Env, st: WState, i: Instr, d: Path)
    requires KeysOk(st.vars, st.varKeys) && PlainPath(env.outDir)
  {
    var a := Dst(env.outDir, st.curDir, StrOf(env, st, i.p[0]));
    var b := Dst(env.outDir, st.curDir, StrOf(env, st, i.p[1]));
    if i.op == EXTRACT_FILE || i.op == WRITE_UNINSTALLER then
      Target(env, st, i).Some? && Target(env, st, i).value.0 == d
    else if i.op == RENAME then a.Some? && b.Some? && (a.value <= d || b.value <= d)
    else if i.op == DELETE_FILE then a == Some(d)
    else if i.op == RM_DIR then a.Some? && a.value <= d
    else false
  }

  predicate Untouched(env: Env, st: WState, prog: seq<Instr>, d: Path)
    requires KeysOk(st.vars, st.varKeys) && PlainPath(env.outDir)
    decreases |prog|
  {
    |prog| == 0 ||
    (StepKeepsKeys(env, st, prog[0]);
     !Touches(env, st, prog[0], d) && Untouched(env, Step(env, st, prog[0]), prog[1..], d))
  }

  /** d is a file with these bytes. */
  predicate Stands(t: Tree, d: Path, bytes: seq<byte>) { d in t && t[d] == File(bytes) }

  lemma WriteElsewhere(env: Env, t: Tree, pos: int, dst: Path, d: Path, bytes: seq<byte>)
    requires Stands(t, d, bytes) && dst != d
    ensures Stands(WriteData(env, t, pos, dst).1, d, bytes)
  {
    MkdirAllCreates(t, Parent(dst));
  }

  lemma CreateElsewhere(env: Env, st: WState, i: Instr, d: Path, bytes: seq<byte>)
    requires KeysOk(st.vars, st.varKeys) && PlainPath(env.outDir) && Stands(st.tree, d, bytes)
    ensures Stands(CreateDirStep(env, st, i).tree, d, bytes)
  {
    hide StrOf, MkdirAll, SafeJoin, SanitizeRel;
    var dir := SanitizeRel(StrOf(env, st, i.p[0]));
    SafeJoinKeepsSanitized(env.outDir, dir);
    MkdirAllCreates(st.tree, env.outDir + dir);
  }

  lemma RenameElsewhere(t: Tree, a: Path, b: Path, d: Path, bytes: seq<byte>)
    requires Stands(t, d, bytes) && !(a <= d) && !(b <= d)
    ensures Stands(Rename(t, a, b).1, d, bytes)
  {
  }

  lemma StepElsewhere(env: Env, st: WState, i: Instr, d: Path, bytes: seq<byte>)
    requires KeysOk(st.vars, st.varKeys) && PlainPath(env.outDir)
    requires Stands(st.tree, d, bytes) && !Touches(env, st, i, d)
    ensures Stands(Step(env, st, i).tree, d, bytes)
  {
    hide StrOf, MetaOf, Dst, WriteData, SanitizeRel, SafeJoin, MkdirAll, Rename, KeysOk, PlainPath, SetVar;
    if !Handled(i.op) {
      return;
    }
    var st0 := st.(n := st.n.(known := st.n.known + 1));
    var t := st.tree;
    SameText(env, st, st0);
    if i.op == CREATE_DIR {
      CreateElsewhere(env, st0, i, d, bytes);
    } else if i.op == EXTRACT_FILE || i.op == WRITE_UNINSTALLER {
      var target := Target(env, st, i);
      if target.Some? {
        WriteElsewhere(env, t, target.value.1, target.value.0, d, bytes);
      }
    } else if i.op == RENAME {
      var a := Dst(env.outDir, st.curDir, StrOf(env, st, i.p[0]));
      var b := Dst(env.outDir, st.curDir, StrOf(env, st, i.p[1]));
      if a.Some? && b.Some? {
        MkdirAllCreates(t, Parent(b.value));
        RenameElsewhere(MkdirAll(t, Parent(b.value)).1, a.value, b.value, d, bytes);
      }
    } else if i.op == ASSIGN_VAR {
      SetVarOnly(st0, i.p[0], StrOf(env, st0, i.p[1]));
    }
  }

  lemma SameText(env: Env, st: WState, st0: WState)
    requires KeysOk(st.vars, st.varKeys) && st0 == st.(n := st0.n)
    ensures forall off :: StrOf(env, st0, off) == StrOf(env, st, off)
  {
  }

  lemma {:induction false} RunElsewhere(env: Env, st: WState, prog: seq<Instr>, d: Path, bytes: seq<byte>)
    requires KeysOk(st.vars, st.varKeys) && PlainPath(env.outDir)
    requires Stands(st.tree, d, bytes) && Untouched(env, st, prog, d)
    ensures Stands(Run(env, st, prog).tree, d, bytes)
    decreases |prog|
  {
    hide Step, Touches, Stands, KeysOk, PlainPath;
    if |prog| > 0 {
      StepKeepsKeys(env, st, prog[0]);
      StepElsewhere(env, st, prog[0], d, bytes);
      RunElsewhere(env, Step(env, st, prog[0]), prog[1..], d, bytes);
    }
  }

  lemma {:induction false} RunConcat(env: Env, st: WState, a: seq<Instr>, b: seq<Instr>)
    requires KeysOk(st.vars, st.varKeys) && PlainPath(env.outDir)
    ensures var mid := Run(env, st, a); KeysOk(mid.vars, mid.varKeys) && Run(env, st, a + b) == Run(env, mid, b)
    decreases |a|
  {
    hide Step, KeysOk, PlainPath;
    if |a| == 0 {
      assert a + b == b;
    } else {
      StepKeepsKeys(env, st, a[0]);
      RunConcat(env, Step(env, st, a[0]), a[1..], b);
      assert (a + b)[0] == a[0] && (a + b)[1..] == a[1..] + b;
    }
  }

  /** An instruction that counts a file has just written its record's bytes to its target. */
  lemma CountedIsWritten(env: Env, st: WState, i: Instr)
    requires KeysOk(st.vars, st.varKeys) && PlainPath(env.outDir)
    ensures Step(env, st, i).n.files > st.n.files <==>
            && Target(env, st, i).Some?
            && WriteData(env, st.tree, Target(env, st, i).value.1, Target(env, st, i).value.0).0
    ensures Step(env, st, i).n.files > st.n.files ==>
              var (d, pos) := Target(env, st, i).value;
              Payload(env, pos).Some? && Stands(Step(env, st, i).tree, d, Payload(env, pos).value)
  {
    hide StrOf, MetaOf, Dst, SanitizeRel, SafeJoin, MkdirAll, Rename, Payload, KeysOk, PlainPath, SetVar;
    if Handled(i.op) {
      var st0 := st.(n := st.n.(known := st.n.known + 1));
      SameText(env, st, st0);
      if i.op == ASSIGN_VAR {
        SetVarOnly(st0, i.p[0], StrOf(env, st0, i.p[1]));
      }
    }
  }

  /**
   In any program, a file counted by an instruction holds its record's bytes at the end, unless a
   later instruction touches it.
   */
  lemma ExtractedHoldsPayload(env: Env, st: WState, before: seq<Instr>, i: Instr, after: seq<Instr>)
    requires KeysOk(st.vars, st.varKeys) && PlainPath(env.outDir)
    ensures var s1 := Run(env, st, before);
            && KeysOk(s1.vars, s1.varKeys)
            && var s2 := Step(env, s1, i);
               && KeysOk(s2.vars, s2.varKeys)
               && (s2.n.files > s1.n.files ==>
                     && Target(env, s1, i).Some?
                     && var (d, pos) := Target(env, s1, i).value;
                        && Payload(env, pos).Some?
                        && (Untouched(env, s2, after, d) ==>
                              Stands(Run(env, st, before + [i] + after).tree, d, Payload(env, pos).value)))
  {
    hide Step, Target, Untouched, Stands, KeysOk, PlainPath, Payload, Run;
    RunConcat(env, st, before, [i] + after);
    Glue(before, [i], after);
    var s1 := Run(env, st, before);
    StepKeepsKeys(env, s1, i);
    CountedIsWritten(env, s1, i);
    RunFirst(env, s1, i, after);
    var s2 := Step(env, s1, i);
    if s2.n.files > s1.n.files {
      var (d, pos) := Target(env, s1, i).value;
      if Untouched(env, s2, after, d) {
        RunElsewhere(env, s2, after, d, Payload(env, pos).value);
      }
    }
  }

  lemma RunFirst(env: Env, st: WState, i: Instr, after: seq<Instr>)
    requires KeysOk(st.vars, st.varKeys) && PlainPath(env.outDir)
    ensures KeysOk(Step(env, st, i).vars, Step(env, st, i).varKeys)
    ensures Run(env, st, [i] + after) == Run(env, Step(env, st, i), after)
  {
    hide Step, KeysOk, PlainPath;
    StepKeepsKeys(env, st, i);
    assert ([i] + after)[1..] == after;
  }

  // ---------------------------------------------------------------- which bytes

  const TOP := 2147483648

  /** A size field: its top bit is a mark and not part of the size. */
  function SizeOf(field: nat): nat { if field < TOP then field else field - TOP }

  /** A record stands there: a size that is not 0, and so many bytes behind it. */
  predicate RecordAt(dec: seq<byte>, at: int)
  {
    && 0 <= at && at + 4 <= |dec| && SizeOf(U32(dec, at)) != 0 && at + 4 + SizeOf(U32(dec, at)) <= |dec|
  }

  /** Its bytes: those behind the size, inflated if the mark is set. */
  function RecordBytes(dec: seq<byte>, at: int, inflate: seq<byte> -> Option<seq<byte>>): Option<seq<byte>>
    requires RecordAt(dec, at)
  {
    var body := dec[at + 4..at + 4 + SizeOf(U32(dec, at))];
    if U32(dec, at) < TOP then Some(body) else inflate(body)
  }

  lemma PayloadIsRecord(env: Env, pos: int)
    ensures pos >= 0 && RecordAt(env.dec, env.dataBase + pos) ==>
              Payload(env, pos) == RecordBytes(env.dec, env.dataBase + pos, env.inflate)
    ensures pos < 0 || !RecordAt(env.dec, env.dataBase + pos) ==> Payload(env, pos).None?
  {
    hide FromLE;
    var at := env.dataBase + pos;
    if pos >= 0 && at + 4 <= |env.dec| {
      LowByteFirst(env.dec[at..at + 4]);
      SizeIsRest(U32(env.dec, at));
    }
  }

  lemma SizeIsRest(field: nat)
    requires field < 2 * TOP
    ensures SizeOf(field) == field % HIGH_BIT
  {
  }

  /** An extraction (opcode 20: name and data in its second and third operand) or an uninstaller (62: in its first two). */
  predicate Extracts(env: Env, st: WState, i: Instr, d: Path, pos: int)
    requires KeysOk(st.vars, st.varKeys) && PlainPath(env.outDir)
  {
    || (i.op == 20 && Dst(env.outDir, st.curDir, StrOf(env, st, i.p[1])) == Some(d) && pos == i.p[2])
    || (i.op == 62 && Dst(env.outDir, st.curDir, StrOf(env, st, i.p[0])) == Some(d) && pos == i.p[1])
  }

  /** A file can be put at d: no file is in the way to it, and it is not a directory. */
  predicate Free(t: Tree, d: Path)
  {
    d != [] && (d in t ==> t[d].File?) && forall q :: OnTheWay(Parent(d), q) && q in t ==> t[q].Dir?
  }

  /**
   If a record stands where an extraction looks for its data and its bytes can be had, they are in the
   file afterwards and it is counted, provided a file can be put there. Otherwise nothing is counted, and
   without a record nothing is written.
   */
  lemma ExtractionBytes(env: Env, st: WState, i: Instr, d: Path, pos: int)
    requires KeysOk(st.vars, st.varKeys) && PlainPath(env.outDir) && Closed(st.tree)
    requires Extracts(env, st, i, d, pos)
    ensures var st1, at := Step(env, st, i), env.dataBase + pos;
            if pos >= 0 && RecordAt(env.dec, at) && RecordBytes(env.dec, at, env.inflate).Some? then
              if Free(st.tree, d) then
                st1.n.files == st.n.files + 1 && Stands(st1.tree, d, RecordBytes(env.dec, at, env.inflate).value)
              else st1.n.files == st.n.files
            else st1.n.files == st.n.files && st1.tree == st.tree
  {
    hide Extracts, Step, Payload, RecordAt, RecordBytes, MkdirAll, WriteFile, Free, Closed;
    ExtractionIsWrite(env, st, i, d, pos);
    PayloadIsRecord(env, pos);
    if Payload(env, pos).Some? {
      WriteIff(st.tree, d, Payload(env, pos).value);
    }
  }

  lemma ExtractionIsWrite(env: Env, st: WState, i: Instr, d: Path, pos: int)
    requires KeysOk(st.vars, st.varKeys) && PlainPath(env.outDir) && Extracts(env, st, i, d, pos)
    ensures var st1, w := Step(env, st, i), WriteData(env, st.tree, pos, d);
            st1.tree == w.1 && st1.n.files == st.n.files + if w.0 then 1 else 0
  {
    hide StrOf, MetaOf, Dst, WriteData, KeysOk, PlainPath;
    SameText(env, st, st.(n := st.n.(known := st.n.known + 1)));
  }

  lemma WriteIff(t: Tree, d: Path, b: seq<byte>)
    requires Closed(t)
    ensures var (made, u) := MkdirAll(t, Parent(d));
            && (made && WriteFile(u, d, b).0 <==> Free(t, d))
            && (WriteFile(u, d, b).0 ==> Stands(WriteFile(u, d, b).1, d, b))
  {
    MkdirAllIff(t, Parent(d));
    MkdirAllCreates(t, Parent(d));
  }

  // ---------------------------------------------------------------- what the other opcodes do

  /** 1 to 71 are known. 1, 2, 5, 12, 14, 26 and 28 are control flow, which is counted and not followed. */
  lemma CountingOps(env: Env, st: WState, i: Instr)
    requires KeysOk(st.vars, st.varKeys) && PlainPath(env.outDir)
    ensures var n, m := st.n, Step(env, st, i).n;
            && m.known == n.known + (if 1 <= i.op <= 71 then 1 else 0)
            && m.unknown == n.unknown + (if 1 <= i.op <= 71 then 0 else 1)
            && m.control == n.control + (if i.op in {1, 2, 5, 12, 14, 26, 28} then 1 else 0)
            && (i.op != 20 && i.op != 62 ==> m.files == n.files && m.wanted == n.wanted)
  {
    hide StrOf, MetaOf, Dst, WriteData, SanitizeRel, SafeJoin, MkdirAll, Rename, KeysOk, PlainPath, SetVar, DeleteStep, RenameStep;
    var st0 := st.(n := st.n.(known := st.n.known + 1));
    if i.op == 25 {
      SetVarOnly(st0, i.p[0], StrOf(env, st0, i.p[1]));
    } else if i.op == 16 {
      RenameOnly(env, st0, i);
    } else if i.op == 21 || i.op == 23 {
      DeleteOnly(env, st0, i);
    }
  }

  lemma RenameOnly(env: Env, st: WState, i: Instr)
    requires KeysOk(st.vars, st.varKeys) && PlainPath(env.outDir)
    ensures RenameStep(env, st, i) == st.(tree := RenameStep(env, st, i).tree)
  {
    hide Dst, StrOf, MkdirAll, Rename;
  }

  lemma DeleteOnly(env: Env, st: WState, i: Instr)
    requires KeysOk(st.vars, st.varKeys) && PlainPath(env.outDir)
    ensures DeleteStep(env, st, i) == st.(tree := DeleteStep(env, st, i).tree)
  {
    hide Dst, StrOf, Remove, RemoveAll;
  }

  /** 25 assigns a variable; every other opcode leaves the variables alone. */
  lemma AssigningOps(env: Env, st: WState, i: Instr)
    requires KeysOk(st.vars, st.varKeys) && PlainPath(env.outDir)
    ensures Step(env, st, i).vars == if i.op == 25 then st.vars[Chars(VarName(i.p[0])) := StrOf(env, st, i.p[1])] else st.vars
  {
    hide StrOf, MetaOf, Dst, WriteData, SanitizeRel, SafeJoin, MkdirAll, Rename, Remove, RemoveAll, KeysOk, PlainPath, VarName;
    SameText(env, st, st.(n := st.n.(known := st.n.known + 1)));
  }

  /** 11 makes a directory and, with a second operand that is not 0, goes there; 16 moves; 21 and 23 remove. */
  lemma TreeOps(env: Env, st: WState, i: Instr)
    requires KeysOk(st.vars, st.varKeys) && PlainPath(env.outDir) && PlainPath(st.curDir)
    ensures var a, b := Dst(env.outDir, st.curDir, StrOf(env, st, i.p[0])), Dst(env.outDir, st.curDir, StrOf(env, st, i.p[1]));
            var dir, t, u := SanitizeRel(StrOf(env, st, i.p[0])), st.tree, Step(env, st, i);
            && u.curDir == (if i.op == 11 && i.p[1] != 0 then dir else st.curDir)
            && (i.op == 11 ==> u.tree == if dir == [] then t else MkdirAll(t, env.outDir + dir).1)
            && (i.op == 16 ==>
                  u.tree == if a.None? || b.None? || !MkdirAll(t, Parent(b.value)).0 then t
                            else Rename(MkdirAll(t, Parent(b.value)).1, a.value, b.value).1)
            && (i.op == 21 ==> u.tree == if a.None? then t else Remove(t, a.value))
            && (i.op == 23 ==> u.tree == if a.None? then t else RemoveAll(t, a.value))
            && (i.op !in {11, 16, 20, 21, 23, 62} ==> u.tree == t)
  {
    hide StrOf, MetaOf, Dst, WriteData, SafeJoin, SanitizeRel, MkdirAll, Rename, Remove, RemoveAll, KeysOk, SetVar;
    var st0 := st.(n := st.n.(known := st.n.known + 1));
    SameText(env, st, st0);
    SafeJoinKeepsSanitized(env.outDir, SanitizeRel(StrOf(env, st, i.p[0])));
    if i.op == 25 {
      SetVarOnly(st0, i.p[0], StrOf(env, st0, i.p[1]));
    } else if i.op == 16 && Dst(env.outDir, st.curDir, StrOf(env, st, i.p[1])).Some? {
      MkdirAllCreates(st.tree, Parent(Dst(env.outDir, st.curDir, StrOf(env, st, i.p[1])).value));
    }
  }

  /** What is recorded: 10 and 22 are attributes and a message, 40 to 52 programs, libraries, copies, INI and registry. */
  lemma RecordingOps(env: Env, st: WState, i: Instr)
    requires KeysOk(st.vars, st.varKeys) && PlainPath(env.outDir) && i.op != 62
    ensures var p, noted := i.p, Step(env, st, i).meta;
            && st.meta <= noted
            && var lines := noted[|st.meta|..];
               var str := (k: int) requires 0 <= k < 6 => StrOf(env, st, i.p[k]);
               && (i.op == 51 ==> lines == if p[4] == 4 then [MetaLine(51, [p[0], p[3]], [str(1), str(2)])]
                                           else [MetaLine(51, [p[0]], [str(1), str(2), str(3)])])
               && (i.op == 50 ==> lines == [MetaLine(50, [p[0]], [str(1), str(2)])])
               && (i.op == 45 ==> lines == [MetaLine(45, [], [str(0), str(1), str(2), str(3)])])
               && (i.op == 44 || i.op == 46 ==> lines == [MetaLine(i.op, [], [str(0), str(1)])])
               && (i.op == 40 ==> lines == [MetaLine(40, [], [str(0), str(1), str(2)])])
               && (i.op == 41 ==> lines == [MetaLine(41, [], [str(0)])])
               && (i.op == 48 ==> lines == [MetaLine(48, [], [str(3), str(0), str(1), str(2)])])
               && (i.op == 49 ==> lines == [MetaLine(49, [], [str(3), str(1), str(2), Chars(VarName(p[0]))])])
               && (i.op == 52 ==> lines == [MetaLine(52, [p[1]], [str(2), str(3), Chars(VarName(p[0]))])])
               && (i.op == 10 ==> lines == [MetaLine(10, [p[1]], [str(0)])])
               && (i.op == 22 ==> lines == [MetaLine(22, [], [str(1)])])
               && (i.op == 47 ==> lines == [MetaLine(47, [], [])])
               && (i.op !in {10, 22, 40, 41, 44, 45, 46, 47, 48, 49, 50, 51, 52} ==> lines == [])
  {
    hide StrOf, Dst, WriteData, SanitizeRel, SafeJoin, MkdirAll, Rename, Remove, RemoveAll, KeysOk, PlainPath, VarName, SetVar;
    var st0 := st.(n := st.n.(known := st.n.known + 1));
    SameText(env, st, st0);
    if i.op == 25 {
      SetVarOnly(st0, i.p[0], StrOf(env, st0, i.p[1]));
    }
  }

  // ---------------------------------------------------------------- where names go

  /** A relative name of tidy components goes below the current directory of the walk. */
  lemma PlainNameGoes(outDir: Path, curDir: Path, p: Path)
    requires PlainPath(outDir) && |p| > 0 && (forall k :: 0 <= k < |p| ==> Tidy(p[k]))
    requires (forall k :: 0 <= k < |curDir| ==> Tidy(curDir[k])) && !HasDrive((curDir + p)[0]) && !HasDrive(p[0])
    ensures Dst(outDir, curDir, Join(p)) == Some(outDir + (curDir + p))
  {
    hide Join, Split, SafeJoin, SanitizeRel, CleanRelOnto, HasDrive;
    var q := curDir + p;
    NotRooted(p);
    SplitTidy(p);
    TidyIsClean(q);
    SanitizeKeepsTidy(q);
    TidyIsPlain(q);
    SafeJoinKeepsSanitized(outDir, q);
  }

  lemma TidyIsPlain(q: Path)
    requires forall k :: 0 <= k < |q| ==> Tidy(q[k])
    ensures PlainPath(q)
  {
  }

  lemma NotRooted(p: Path)
    requires |p| > 0 && (forall k :: 0 <= k < |p| ==> Tidy(p[k])) && !HasDrive(p[0])
    ensures Join(p) != "" && !IsRooted(Join(p))
  {
    hide Join;
    JoinEnds(p);
    NoDrive(p);
    assert Tidy(p[0]);
  }

  /** A name that begins with a variable, a slash of either kind, or a drive goes the same way from any directory. */
  lemma RootedNameGoes(outDir: Path, c: Path, d: Path, name: string)
    requires PlainPath(outDir)
    requires name != "" && (name[0] == '$' || name[0] == '/' || name[0] == '\\' || (|name| >= 2 && name[0] < '\U{0080}' && name[1] == ':'))
    ensures Dst(outDir, c, name) == Dst(outDir, d, name)
    ensures Dst(outDir, c, name) == if SanitizeRel(name) == [] then None else Some(outDir + SanitizeRel(name))
  {
    hide SafeJoin, SanitizeRel;
    SafeJoinKeepsSanitized(outDir, SanitizeRel(name));
  }

  // ---------------------------------------------------------------- text

  predicate OccursAt(s: string, k: string, i: int) { 0 <= i <= |s| - |k| && s[i..i + |k|] == k }

  lemma OccursLater(s: string, k: string, j: int)
    requires s != ""
    ensures OccursAt(s[1..], k, j) <==> j >= 0 && OccursAt(s, k, j + 1)
  {
    if 0 <= j < |s| - |k| {
      assert s[1..][j..j + |k|] == s[j + 1..j + 1 + |k|];
    }
  }

  lemma OccursFirst(s: string, k: string)
    ensures OccursAt(s, k, 0) <==> |s| >= |k| && s[..|k|] == k
  {
    if |s| >= |k| {
      assert s[..|k|] == s[0..0 + |k|];
    }
  }

  lemma ReplaceStep(s: string, k: string, v: string)
    requires k != ""
    ensures OccursAt(s, k, 0) ==> |s| >= |k| && ReplaceAll(s, k, v) == v + ReplaceAll(s[|k|..], k, v)
    ensures !OccursAt(s, k, 0) && |s| >= |k| ==> ReplaceAll(s, k, v) == [s[0]] + ReplaceAll(s[1..], k, v)
    ensures |s| < |k| ==> ReplaceAll(s, k, v) == s
  {
    OccursFirst(s, k);
  }

  /** What does not occur is not replaced. */
  lemma {:induction false} NoneReplaced(s: string, k: string, v: string)
    requires k != "" && forall j :: !OccursAt(s, k, j)
    ensures ReplaceAll(s, k, v) == s
    decreases |s|
  {
    hide OccursAt, ReplaceAll;
    ReplaceStep(s, k, v);
    if |s| >= |k| {
      forall j
        ensures !OccursAt(s[1..], k, j)
      {
        OccursLater(s, k, j);
      }
      NoneReplaced(s[1..], k, v);
    }
  }

  /** What is replaced is the first occurrence, and then those in what follows it. */
  lemma {:induction false} FirstReplaced(s: string, k: string, v: string, i: nat)
    requires k != "" && OccursAt(s, k, i) && forall j :: 0 <= j < i ==> !OccursAt(s, k, j)
    ensures i + |k| <= |s| && ReplaceAll(s, k, v) == s[..i] + (v + ReplaceAll(s[i + |k|..], k, v))
    decreases |s|
  {
    OccursWithin(s, k, i);
    hide OccursAt, ReplaceAll;
    ReplaceStep(s, k, v);
    if i == 0 {
      assert s[..0] + (v + ReplaceAll(s[|k|..], k, v)) == v + ReplaceAll(s[|k|..], k, v);
    } else {
      OccursInRest(s, k, i);
      var t := s[1..];
      FirstReplaced(t, k, v, i - 1);
      assert t[i - 1 + |k|..] == s[i + |k|..];
      FirstOf(s, i, v + ReplaceAll(s[i + |k|..], k, v));
    }
  }

  lemma OccursInRest(s: string, k: string, i: nat)
    requires s != "" && i > 0 && OccursAt(s, k, i) && forall j :: 0 <= j < i ==> !OccursAt(s, k, j)
    ensures OccursAt(s[1..], k, i - 1) && forall j :: 0 <= j < i - 1 ==> !OccursAt(s[1..], k, j)
  {
    hide OccursAt;
    OccursLater(s, k, i - 1);
    forall j | 0 <= j < i - 1
      ensures !OccursAt(s[1..], k, j)
    {
      OccursLater(s, k, j);
    }
  }

  lemma FirstOf(s: string, i: nat, rest: string)
    requires 0 < i <= |s|
    ensures s[..i] + rest == [s[0]] + (s[1..][..i - 1] + rest)
  {
  }

  lemma OccursWithin(s: string, k: string, i: nat)
    requires OccursAt(s, k, i)
    ensures i + |k| <= |s|
  {
  }
}
