/**
 The NSIS unpacker at work: the walk as an object whose handlers update its fields, the header
 that yields the program, and the raw-record dump that is used when the walk finds nothing.
 */
module NsisUnpack {
  import opened Common
  import opened Bytes
  import opened NsisStrings
  import opened NsisPaths
  import opened FileTree
  import opened NsisWalk

  class Walker {
    const env: Env
    var vars: map<string, string>
    var varKeys: seq<string>
    var curDir: Path
    var tree: Tree
    var n: Counters
    var meta: seq<MetaLine>

    ghost predicate Valid()
      reads this
    {
      KeysOk(vars, varKeys) && PlainPath(env.outDir)
    }

    function State(): WState
      reads this
    {
      WState(vars, varKeys, curDir, tree, n, meta)
    }

    constructor (e: Env, t: Tree)
      requires PlainPath(e.outDir)
      ensures Valid() && env == e && State() == NsisWalk.Start(t)
    {
      env := e;
      vars, varKeys, curDir, tree := map[], [], [], t;
      n, meta := Counters(0, 0, 0, 0, 0), [];
    }

    /** A string parameter with every assigned variable filled in, longest name first. */
    method Text(off: int) returns (s: string)
      requires Valid()
      ensures s == StrOf(env, State(), off)
    {
      s := env.resolve(off);
      if '$' !in s {
        return;
      }
      ghost var s0 := s;
      for i := 0 to |varKeys|
        invariant Substitute(s, vars, varKeys[i..]) == Substitute(s0, vars, varKeys)
      {
        assert varKeys[i..][0] == varKeys[i] && varKeys[i..][1..] == varKeys[i + 1..];
        s := ReplaceAll(s, varKeys[i], vars[varKeys[i]]);
      }
    }

    method Assign(idx: int, val: string)
      requires Valid()
      modifies this
      ensures Valid() && State() == SetVar(old(State()), idx, val)
    {
      SetVarKeepsKeys(State(), idx, val);
      var name := VarKey(idx);
      if name !in vars {
        varKeys := InsertKey(varKeys, name);
      }
      vars := vars[name := val];
    }

    method CreateDir(i: Instr)
      requires Valid()
      modifies this
      ensures Valid() && State() == CreateDirStep(env, old(State()), i)
    {
      hide StrOf, SanitizeRel, MkdirAll, KeysOk;
      var name := Text(i.p[0]);
      var dir := SanitizeRelLoop(name);
      if i.p[1] != 0 {
        curDir := dir;
      }
      if dir != [] {
        var path := SafeJoin(env.outDir, dir);
        if path.Some? {
          var (_, t) := MkdirAll(tree, path.value);
          tree := t;
        }
      }
    }

    method Write(pos: int, dst: Path) returns (ok: bool)
      modifies this`tree
      ensures (ok, tree) == WriteData(env, old(tree), pos, dst)
    {
      hide MkdirAll, WriteFile, Payload;
      var data := Payload(env, pos);
      if data.None? {
        return false;
      }
      var (made, t) := MkdirAll(tree, Parent(dst));
      tree := t;
      if !made {
        return false;
      }
      var (wrote, t1) := WriteFile(tree, dst, data.value);
      tree := t1;
      ok := wrote;
    }

    method Extract(name: string, pos: int, note: bool)
      requires Valid()
      modifies this
      ensures Valid() && State() == ExtractStep(env, old(State()), name, pos, note)
    {
      hide Dst, WriteData, KeysOk;
      var d := Dst(env.outDir, curDir, name);
      if d.None? {
        return;
      }
      n := n.(wanted := n.wanted + 1);
      var ok := Write(pos, d.value);
      if ok {
        n := n.(files := n.files + 1);
        if note {
          meta := meta + [MetaLine(WRITE_UNINSTALLER, [], d.value)];
        }
      }
    }

    method MoveFile(i: Instr)
      requires Valid()
      modifies this
      ensures Valid() && State() == RenameStep(env, old(State()), i)
    {
      hide Dst, StrOf, MkdirAll, Rename, KeysOk;
      var a := Text(i.p[0]);
      var b := Text(i.p[1]);
      var from, to := Dst(env.outDir, curDir, a), Dst(env.outDir, curDir, b);
      if from.None? || to.None? {
        return;
      }
      var (made, t) := MkdirAll(tree, Parent(to.value));
      tree := t;
      if made {
        var (_, t1) := Rename(tree, from.value, to.value);
        tree := t1;
      }
    }

    method Delete(i: Instr)
      requires Valid()
      modifies this
      ensures Valid() && State() == DeleteStep(env, old(State()), i)
    {
      hide Dst, StrOf, Remove, RemoveAll, KeysOk;
      var name := Text(i.p[0]);
      var d := Dst(env.outDir, curDir, name);
      if d.Some? {
        tree := if i.op == RM_DIR then RemoveAll(tree, d.value) else Remove(tree, d.value);
      }
    }

    /** One instruction of the linear walk. */
    method Exec(i: Instr)
      requires Valid()
      modifies this
      ensures Valid() && State() == Step(env, old(State()), i)
    {
      hide CreateDirStep, ExtractStep, RenameStep, DeleteStep, SetVar, StrOf, MetaOf, KeysOk, PlainPath;
      if !Handled(i.op) {
        n := n.(unknown := n.unknown + 1);
        return;
      }
      n := n.(known := n.known + 1);
      if i.op == CREATE_DIR {
        CreateDir(i);
      } else if i.op == EXTRACT_FILE {
        var name := Text(i.p[1]);
        Extract(name, i.p[2], false);
      } else if i.op == WRITE_UNINSTALLER {
        var name := Text(i.p[0]);
        Extract(name, i.p[1], true);
      } else if i.op == RENAME {
        MoveFile(i);
      } else if i.op == DELETE_FILE || i.op == RM_DIR {
        Delete(i);
      } else if i.op == ASSIGN_VAR {
        var val := Text(i.p[1]);
        Assign(i.p[0], val);
      } else if IsControl(i.op) {
        n := n.(control := n.control + 1);
      } else {
        meta := meta + MetaOf(env, State(), i);
      }
    }
  }

  // ---------------------------------------------------------------- the header

  const ENTRY_SIZE := 28
  const NB_ENTRIES := 2
  const NB_STRINGS := 3
  const NB_LANGTABLES := 4

  function Int32At(s: seq<byte>, p: nat): int
    requires p + 4 <= |s|
  {
    Signed(FromLE(s[p..p + 4]), 4)
  }

  /** The header starts after a repeated size, when the stream begins with one. */
  function HeaderBase(dec: seq<byte>, hdrSize: int): nat
  {
    if |dec| >= 4 && FromLE(dec[..4]) == hdrSize then 4 else 0
  }

  function BlockAt(dec: seq<byte>, base: nat, k: nat): (int, int)
  {
    var p := base + 4 + k * 8;
    if p + 8 > |dec| then (0, 0) else (Int32At(dec, p), Int32At(dec, p + 4))
  }

  function InstrAt(dec: seq<byte>, p: nat): Instr
    requires p + ENTRY_SIZE <= |dec|
  {
    InstrRaw.Instr(Int32At(dec, p),
                   [Int32At(dec, p + 4), Int32At(dec, p + 8), Int32At(dec, p + 12), Int32At(dec, p + 16),
                    Int32At(dec, p + 20), Int32At(dec, p + 24)])
  }

  function Program(dec: seq<byte>, p: nat, count: nat): (prog: seq<Instr>)
    requires p + count * ENTRY_SIZE <= |dec|
    ensures |prog| == count
    decreases count
  {
    if count == 0 then [] else [InstrAt(dec, p)] + Program(dec, p + ENTRY_SIZE, count - 1)
  }

  /** The string table runs to the language tables, or to the end when those are not behind it. */
  function StringTable(dec: seq<byte>, hdrSize: int): seq<byte>
  {
    var hb := HeaderBase(dec, hdrSize);
    var from, to := BlockAt(dec, hb, NB_STRINGS).0 + hb, BlockAt(dec, hb, NB_LANGTABLES).0 + hb;
    var end := if to <= from || to > |dec| then |dec| else to;
    if from >= hb && from < |dec| then dec[from..end] else []
  }

  /** Where the instructions are, if the header describes a usable table. */
  function EntryTable(dec: seq<byte>, hdrSize: int): (r: Option<(nat, nat)>)
    ensures r.Some? ==> r.value.0 + r.value.1 * ENTRY_SIZE <= |dec|
  {
    if hdrSize < 4 + 8 * 8 || hdrSize > |dec| then None
    else
      var hb := HeaderBase(dec, hdrSize);
      var (off, count) := BlockAt(dec, hb, NB_ENTRIES);
      if off < 0 || count <= 0 || off + hb + count * ENTRY_SIZE > |dec| then None
      else Some((off + hb, count))
  }

  lemma WordBytes(dec: seq<byte>, p: nat)
    requires p + 4 <= |dec|
    ensures FromLE(dec[p..p + 4]) == U32(dec, p) && Int32At(dec, p) == Signed32(U32(dec, p))
  {
    LowByteFirst(dec[p..p + 4]);
    TopBitIsSign(U32(dec, p));
  }

  /** An entry: an opcode and six operands, four bytes each. */
  lemma EntryBytes(dec: seq<byte>, p: nat)
    requires p + 28 <= |dec|
    ensures InstrAt(dec, p).op == Signed32(U32(dec, p))
    ensures forall k :: 0 <= k < 6 ==> InstrAt(dec, p).p[k] == Signed32(U32(dec, p + 4 + 4 * k))
  {
    hide Int32At, U32, Signed32;
    WordBytes(dec, p);
    WordBytes(dec, p + 4);
    WordBytes(dec, p + 8);
    WordBytes(dec, p + 12);
    WordBytes(dec, p + 16);
    WordBytes(dec, p + 20);
    WordBytes(dec, p + 24);
  }

  /** A header is at least 68 bytes, and stands at 4 if the stream starts with its size, else at 0. */
  function HeaderAt(dec: seq<byte>, hdrSize: nat): nat { if |dec| >= 4 && U32(dec, 0) == hdrSize then 4 else 0 }

  /**
   The entries' place and number stand 20 and 24 bytes into the header, the place of the strings 28 and
   that of the language tables, before which they end, 36; all places count from the header. The data follow it.
   */
  lemma HeaderBytes(dec: seq<byte>, hdrSize: nat)
    requires 68 <= hdrSize <= |dec|
    ensures var h := HeaderAt(dec, hdrSize);
            var off, count := Signed32(U32(dec, h + 20)), Signed32(U32(dec, h + 24));
            var from, to := h + Signed32(U32(dec, h + 28)), h + Signed32(U32(dec, h + 36));
            && EntryTable(dec, hdrSize) == (if off < 0 || count <= 0 || h + off + 28 * count > |dec| then None else Some((h + off, count)))
            && StringTable(dec, hdrSize) == (if from < h || from >= |dec| then [] else dec[from..if from < to <= |dec| then to else |dec|])
    ensures forall unicode, inflate, text, outDir ::
              EnvOf(dec, hdrSize, unicode, inflate, text, outDir).dataBase == HeaderAt(dec, hdrSize) + hdrSize
  {
    hide Int32At, U32, Signed32, FromLE;
    if |dec| >= 4 {
      WordBytes(dec, 0);
      assert dec[..4] == dec[0..4];
    }
    var h := HeaderAt(dec, hdrSize);
    WordBytes(dec, h + 20);
    WordBytes(dec, h + 24);
    WordBytes(dec, h + 28);
    WordBytes(dec, h + 36);
  }

  /** Without room for a header nothing is walked. */
  lemma NoHeader(dec: seq<byte>, hdrSize: nat)
    ensures hdrSize < 68 || hdrSize > |dec| ==> EntryTable(dec, hdrSize) == None
  {
  }

  /** String parameters count characters, so a wide table scales them by two. */
  function Resolver(tab: seq<byte>, unicode: bool, text: seq<byte> -> string): int -> string
  {
    (off: int) => text(Resolve(tab, if unicode then 2 * off else off, unicode))
  }

  function EnvOf(dec: seq<byte>, hdrSize: nat, unicode: bool, inflate: seq<byte> -> Option<seq<byte>>,
                 text: seq<byte> -> string, outDir: Path): (e: Env)
    ensures e.outDir == outDir
  {
    Env(dec, HeaderBase(dec, hdrSize) + hdrSize, inflate, Resolver(StringTable(dec, hdrSize), unicode, text), outDir)
  }

  /**
   Walking the entry table of a decompressed archive. Nothing outside the output directory changes,
   and the counters account for every instruction.
   */
  method ExtractStructured(dec: seq<byte>, hdrSize: nat, unicode: bool, inflate: seq<byte> -> Option<seq<byte>>,
                           text: seq<byte> -> string, outDir: Path, tree: Tree)
    returns (st: WState)
    requires PlainPath(outDir) && Rooted(tree, outDir)
    ensures match EntryTable(dec, hdrSize)
            case None => st == NsisWalk.Start(tree)
            case Some((p, count)) =>
              var env := EnvOf(dec, hdrSize, unicode, inflate, text, outDir);
              && st == Run(env, NsisWalk.Start(tree), Program(dec, p, count))
              && Inv(env, tree, count, st)
    ensures OnlyBelow(outDir, tree, st.tree)
  {
    hide Run, Inv, OnlyBelow, EntryTable, KeysOk, PlainPath, Rooted, InstrAt, NsisWalk.Step, Program, EnvOf;
    var env := EnvOf(dec, hdrSize, unicode, inflate, text, outDir);
    var w := new Walker(env, tree);
    var table := EntryTable(dec, hdrSize);
    if table.None? {
      StartContained(outDir, tree);
      return w.State();
    }
    var (p, count) := table.value;
    RunContained(env, tree, Program(dec, p, count));
    var q := p;
    for i := 0 to count
      invariant w.Valid() && w.env == env
      invariant q == p + i * ENTRY_SIZE
      invariant Run(env, w.State(), Program(dec, q, count - i)) == Run(env, NsisWalk.Start(tree), Program(dec, p, count))
    {
      RunStep(env, w.State(), dec, q, count - i);
      w.Exec(InstrAt(dec, q));
      q := q + ENTRY_SIZE;
    }
    RunNothing(env, w.State(), dec, q);
    st := w.State();
  }

  lemma StartContained(outDir: Path, tree: Tree)
    ensures OnlyBelow(outDir, tree, NsisWalk.Start(tree).tree)
  {
  }

  lemma RunStep(env: Env, st: WState, dec: seq<byte>, q: nat, count: nat)
    requires KeysOk(st.vars, st.varKeys) && PlainPath(env.outDir)
    requires count > 0 && q + count * ENTRY_SIZE <= |dec|
    ensures var st1 := NsisWalk.Step(env, st, InstrAt(dec, q));
            && KeysOk(st1.vars, st1.varKeys)
            && Run(env, st, Program(dec, q, count)) == Run(env, st1, Program(dec, q + ENTRY_SIZE, count - 1))
  {
    hide NsisWalk.Step, InstrAt;
    StepKeepsKeys(env, st, InstrAt(dec, q));
    var prog := Program(dec, q, count);
    assert prog[0] == InstrAt(dec, q) && prog[1..] == Program(dec, q + ENTRY_SIZE, count - 1);
  }

  lemma RunNothing(env: Env, st: WState, dec: seq<byte>, q: nat)
    requires KeysOk(st.vars, st.varKeys) && PlainPath(env.outDir) && q <= |dec|
    ensures Run(env, st, Program(dec, q, 0)) == st
  {
  }

  /** Any program, run from the start: only the output directory's contents change, and every count adds up. */
  lemma RunContained(env: Env, tree: Tree, prog: seq<Instr>)
    requires PlainPath(env.outDir) && Rooted(tree, env.outDir)
    ensures KeysOk(NsisWalk.Start(tree).vars, NsisWalk.Start(tree).varKeys)
    ensures Inv(env, tree, |prog|, Run(env, NsisWalk.Start(tree), prog))
    ensures OnlyBelow(env.outDir, tree, Run(env, NsisWalk.Start(tree), prog).tree)
  {
    StartIsValid(env, tree);
    RunKeepsInv(env, tree, 0, NsisWalk.Start(tree), prog);
  }
}
