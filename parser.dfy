/** `parsePathDataNormalized` without the arc-to-cubic geometry: the command runs
    of a path-data string (SVG 1.1, section 8.3), already cut into a command
    letter and its number tokens, are split into single commands, made absolute
    and stripped of shorthands. `Number(token)`, `arcToBezier` and the options
    are parameters. */
module PathParser {
  import opened Geometry
  import ArcFlags

  /** One run of the input: a command letter and the tokens after it. */
  datatype RawChunk = RawChunk(letter: char, tokens: seq<string>)

  datatype Options = Options(toAbsolute: bool, toLonghands: bool, arcToCubic: bool, arcAccuracy: int)

  /** The three tests the parser runs on the whole string before its loop. */
  datatype Flags = Flags(hasRelative: bool, hasShorthands: bool, hasArcs: bool) {
    predicate Converts() { hasRelative || hasShorthands || hasArcs }
  }

  /** The running offsets and current point (`offX`, `offY`, `lastX`, `lastY`). */
  datatype Cursor = Cursor(offX: real, offY: real, lastX: real, lastY: real)

  /** `arcToBezier(p0, values, arcAccuracy)`. */
  type ArcToBezier = (Point, seq<real>, int) -> seq<Command>

  /** The lower-case command alphabet of `cmdRegEx`, `[mlcqazvhst]`. */
  predicate IsCommand(c: char) {
    c == 'm' || c == 'l' || c == 'c' || c == 'q' || c == 'a' || c == 'z' || c == 'v' || c == 'h' || c == 's' || c == 't'
  }

  /** The shorthand letters, `[vhst]`. */
  predicate IsShorthand(c: char) {
    c == 'v' || c == 'h' || c == 's' || c == 't'
  }

  /** The letters the relative test looks for, `[lcqamts]` (lower case only). */
  predicate IsRelativeMark(c: char) {
    c == 'l' || c == 'c' || c == 'q' || c == 'a' || c == 'm' || c == 't' || c == 's'
  }

  /** `comLengths`: the number of values of one command of each kind. */
  function Arity(typeRel: char): nat {
    match typeRel
    case 'm' => 2
    case 'a' => 7
    case 'c' => 6
    case 'h' => 1
    case 'l' => 2
    case 'q' => 4
    case 's' => 4
    case 't' => 2
    case 'v' => 1
    case _ => 0
  }

  /** A value read at an index the source may not have: JavaScript gives
      `undefined` there (and NaN after arithmetic); the model reads 0. */
  function At(vs: seq<real>, k: nat): real {
    if k < |vs| then vs[k] else 0.0
  }

  /** The tokens of a run after arc-flag splitting, which runs only for an arc
      run whose token count is not exactly one tuple. */
  function ChunkTokens(ch: RawChunk): seq<string> {
    if ToLower(ch.letter) == 'a' && |ch.tokens| != ArcFlags.ArcArity then ArcFlags.ArcTokens(ch.tokens)
    else ch.tokens
  }

  /** `values.map(Number)`. */
  function Numbers(ch: RawChunk, num: string -> real): (r: seq<real>)
    ensures |r| == |ChunkTokens(ch)|
  {
    var toks := ChunkTokens(ch);
    seq(|toks|, k requires 0 <= k < |toks| => num(toks[k]))
  }

  /** A run whose value count is a whole, non-zero number of tuples (none for
      `z`): fewer values leave JavaScript `undefined` coordinates, and values
      after a `z` make the splitting loop run forever. */
  predicate GoodCount(ch: RawChunk) {
    WholeTuples(|ChunkTokens(ch)|, Arity(ToLower(ch.letter)))
  }

  /** `n` values are a whole number of tuples of `a` values. */
  predicate Tuples(n: nat, a: nat)
    decreases n
  {
    n == 0 || (0 < a <= n && Tuples(n - a, a))
  }

  /** `n` values are a whole, non-zero number of tuples of `a` values, or none
      at all when `a` is 0. */
  predicate WholeTuples(n: nat, a: nat) {
    if a == 0 then n == 0 else n > 0 && Tuples(n, a)
  }

  /** What the parser needs of its input: the path starts with a moveto, every
      run is a known command letter with whole tuples of values. */
  predicate WellFormed(chunks: seq<RawChunk>) {
    && |chunks| > 0
    && ToLower(chunks[0].letter) == 'm'
    && forall k :: 0 <= k < |chunks| ==> IsCommand(ToLower(chunks[k].letter)) && GoodCount(chunks[k])
  }

  /** Every run of a well-formed path can be parsed on its own. */
  lemma WellFormedRun(chunks: seq<RawChunk>, c: nat)
    requires WellFormed(chunks) && c < |chunks|
    ensures IsCommand(ToLower(chunks[c].letter)) && GoodCount(chunks[c]) && (c == 0 ==> ToLower(chunks[c].letter) == 'm')
  {
  }

  /** The first run, a moveto, has at least one coordinate pair. */
  lemma FirstRunHasPair(chunks: seq<RawChunk>)
    requires WellFormed(chunks)
    ensures |ChunkTokens(chunks[0])| >= 2
  {
    assert GoodCount(chunks[0]) && Arity(ToLower(chunks[0].letter)) == 2;
  }

  /** `/[a]/gi.test(d)`, `/[vhst]/gi.test(d)` and `/[lcqamts]/g` on the string
      without its first and last character. On well-formed input the first
      character is the letter of the first run and the last is never one of
      `lcqamts`, so the tests read the run letters. */
  function FlagsOf(chunks: seq<RawChunk>, opts: Options): Flags {
    Flags(
      opts.toAbsolute && exists k :: 1 <= k < |chunks| && IsRelativeMark(chunks[k].letter),
      opts.toLonghands && exists k :: 0 <= k < |chunks| && IsShorthand(ToLower(chunks[k].letter)),
      exists k :: 0 <= k < |chunks| && ToLower(chunks[k].letter) == 'a')
  }

  /** The values of a list of commands, one after the other. */
  function Flatten(cmds: seq<Command>): seq<real> {
    if cmds == [] then [] else cmds[0].values + Flatten(cmds[1..])
  }

  /** The letter of the repeated commands after the first: `m`/`M` go on as
      `l`/`L`, every other letter repeats itself. */
  function ImplicitType(ty: char): char {
    if ToLower(ty) == 'm' then (if IsLower(ty) then 'l' else 'L') else ty
  }

  /** The repeated commands from value index `i` on, each `size` values long
      except possibly the last. */
  function Repeated(ty: char, values: seq<real>, size: nat, i: nat): (r: seq<Command>)
    requires size > 0
    ensures forall k :: 0 <= k < |r| ==> r[k].ty == ty && 0 < |r[k].values| <= size
    decreases |values| - i
  {
    if i >= |values| then []
    else
      var j := if i + size < |values| then i + size else |values|;
      [Command(ty, values[i..j])] + Repeated(ty, values, size, i + size)
  }

  /** The repeated commands hold, in order, exactly the values from `i` on. */
  lemma {:induction false} RepeatedKeepsValues(ty: char, values: seq<real>, size: nat, i: nat)
    requires size > 0
    ensures Flatten(Repeated(ty, values, size, i)) == if i < |values| then values[i..] else []
    decreases |values| - i
  {
    if i < |values| {
      var j := if i + size < |values| then i + size else |values|;
      var rest := Repeated(ty, values, size, i + size);
      var r := Repeated(ty, values, size, i);
      assert r == [Command(ty, values[i..j])] + rest;
      assert r[1..] == rest;
      RepeatedKeepsValues(ty, values, size, i + size);
      assert j < |values| ==> values[j..] == values[i + size..];
      assert values[i..] == values[i..j] + (if j < |values| then values[j..] else []);
    }
  }

  /** When the values left are a whole number `n` of tuples, every repeated
      command has exactly one tuple. */
  lemma {:induction false} RepeatedExact(ty: char, values: seq<real>, size: nat, i: nat)
    requires size > 0 && i <= |values| && Tuples(|values| - i, size)
    ensures forall k :: 0 <= k < |Repeated(ty, values, size, i)| ==> |Repeated(ty, values, size, i)[k].values| == size
    decreases |values| - i
  {
    if i < |values| {
      RepeatedExact(ty, values, size, i + size);
    }
  }

  /** `comChunks`: the first command keeps the run's letter and the first tuple;
      the values beyond it are cut, in order, into repeated commands whose
      letter is `ImplicitType`. (With a size of 0, values after a `z`, the
      source loops forever; the model keeps them in one command.) */
  function ComChunks(ty: char, values: seq<real>, size: nat): (r: seq<Command>)
    ensures |r| > 0 && r[0].ty == ty && (size > 0 ==> |r[0].values| <= size)
    ensures forall k :: 1 <= k < |r| ==> r[k].ty == ImplicitType(ty) && 0 < |r[k].values| <= size
  {
    if 0 < size < |values| then
      [Command(ty, values[..size])] + Repeated(ImplicitType(ty), values, size, size)
    else
      [Command(ty, values)]
  }

  /** Splitting a run loses no value and adds none: the commands' values,
      one after the other, are the run's values. */
  lemma ComChunksKeepValues(ty: char, values: seq<real>, size: nat)
    ensures Flatten(ComChunks(ty, values, size)) == values
  {
    var r := ComChunks(ty, values, size);
    if 0 < size < |values| {
      var rest := Repeated(ImplicitType(ty), values, size, size);
      assert r[1..] == rest;
      RepeatedKeepsValues(ImplicitType(ty), values, size, size);
      assert values == values[..size] + values[size..];
    } else {
      assert r[1..] == [];
    }
  }

  /** A run of whole tuples is cut into commands of exactly one tuple each. */
  lemma ComChunksExact(ty: char, values: seq<real>, size: nat)
    requires size > 0 && WholeTuples(|values|, size)
    ensures forall k :: 0 <= k < |ComChunks(ty, values, size)| ==> |ComChunks(ty, values, size)[k].values| == size
  {
    if |values| > size {
      RepeatedExact(ImplicitType(ty), values, size, size);
    }
  }

  /** What a relative command adds to its value at index `k`: `x` gets the x
      offset and `y` the y offset for every pair of m/l/t/c/q/s, only the end
      point moves for `a`, and `h`/`v` move along one axis. */
  function Shift(typeRel: char, k: nat, offX: real, offY: real): real {
    if typeRel == 'a' then (if k == 5 then offX else if k == 6 then offY else 0.0)
    else if typeRel == 'h' then offX
    else if typeRel == 'v' then offY
    else if typeRel == 'm' || typeRel == 'l' || typeRel == 't' || typeRel == 'c' || typeRel == 'q' || typeRel == 's' then (if k % 2 == 0 then offX else offY)
    else 0.0
  }

  /** The relative-to-absolute switch of the conversion loop. */
  function Absolutize(typeRel: char, values: seq<real>, offX: real, offY: real): seq<real> {
    var v := values;
    match typeRel
    case 'a' => [At(v, 0), At(v, 1), At(v, 2), At(v, 3), At(v, 4), At(v, 5) + offX, At(v, 6) + offY]
    case 'h' => [At(v, 0) + offX]
    case 'v' => [At(v, 0) + offY]
    case 'm' => [At(v, 0) + offX, At(v, 1) + offY]
    case 'l' => [At(v, 0) + offX, At(v, 1) + offY]
    case 't' => [At(v, 0) + offX, At(v, 1) + offY]
    case 'c' => [At(v, 0) + offX, At(v, 1) + offY, At(v, 2) + offX, At(v, 3) + offY, At(v, 4) + offX, At(v, 5) + offY]
    case 'q' => [At(v, 0) + offX, At(v, 1) + offY, At(v, 2) + offX, At(v, 3) + offY]
    case 's' => [At(v, 0) + offX, At(v, 1) + offY, At(v, 2) + offX, At(v, 3) + offY]
    case _ => values
  }

  /** A command of one tuple keeps its length when made absolute, and each of
      its values moves by what `Shift` gives for its index. */
  lemma AbsolutizeShifts(typeRel: char, values: seq<real>, offX: real, offY: real)
    requires |values| == Arity(typeRel)
    ensures var r := Absolutize(typeRel, values, offX, offY);
      && |r| == |values|
      && forall k :: 0 <= k < |r| ==> r[k] == values[k] + Shift(typeRel, k, offX, offY)
  {
  }

  /** The control point an `S` or `T` reflects: for `T` the first pair of the
      previous command, for `S` its second pair when it has more than two
      values and its first pair otherwise. (After a `C` a `T` therefore
      reflects the first control point of the `C`, where SVG 1.1, section 8.3.7,
      takes the current point.) */
  function PrevControl(ty: char, valuesPrev: seq<real>): Point {
    if ty == 'S' && |valuesPrev| > 2 then Point(At(valuesPrev, 2), At(valuesPrev, 3))
    else Point(At(valuesPrev, 0), At(valuesPrev, 1))
  }

  /** Shorthand expansion: `H`/`V` become `L` holding the other coordinate of
      the current point, `S` becomes `C` and `T` becomes `Q` with a new first
      control point that is the previous control point mirrored through the
      current point. */
  function Longhand(com: Command, lastX: real, lastY: real, valuesPrev: seq<real>): Command {
    if com.ty == 'H' then Command('L', [At(com.values, 0), lastY])
    else if com.ty == 'V' then Command('L', [lastX, At(com.values, 0)])
    else if com.ty == 'T' || com.ty == 'S' then
      var cp := PrevControl(com.ty, valuesPrev);
      Command(if com.ty == 'T' then 'Q' else 'C', [lastX * 2.0 - cp.x, lastY * 2.0 - cp.y] + com.values)
    else com
  }

  /** What expansion promises: `H`/`V` give an `L` whose other coordinate is
      the current point's; `S`/`T` give a `C`/`Q` that keeps the written
      values after a first control point whose midpoint with the reflected
      control point is the current point; every command but `H`/`V` keeps its
      end point, and the longhand letters are left alone. */
  lemma LonghandSpec(com: Command, lastX: real, lastY: real, valuesPrev: seq<real>)
    ensures var r := Longhand(com, lastX, lastY, valuesPrev);
      && (com.ty == 'H' ==> r.ty == 'L' && |r.values| == 2 && r.values[0] == At(com.values, 0) && r.values[1] == lastY)
      && (com.ty == 'V' ==> r.ty == 'L' && |r.values| == 2 && r.values[0] == lastX && r.values[1] == At(com.values, 0))
      && (com.ty == 'S' || com.ty == 'T' ==>
            && r.ty == (if com.ty == 'S' then 'C' else 'Q')
            && |r.values| == |com.values| + 2
            && r.values[2..] == com.values
            && (r.values[0] + PrevControl(com.ty, valuesPrev).x) / 2.0 == lastX
            && (r.values[1] + PrevControl(com.ty, valuesPrev).y) / 2.0 == lastY)
      && (com.ty != 'H' && com.ty != 'V' && |com.values| >= 2 ==>
            && |r.values| >= 2
            && r.values[|r.values| - 2] == com.values[|com.values| - 2]
            && r.values[|r.values| - 1] == com.values[|com.values| - 1])
      && (com.ty != 'H' && com.ty != 'V' && com.ty != 'S' && com.ty != 'T' ==> r == com)
  {
  }

  /** What one converted command adds to the output: an arc becomes the cubics
      of `arcToBezier` (a circular arc stays when `arcToCubic` is off), every
      other command is pushed as it is. */
  function Emit(com: Command, typeRel: char, cur: Cursor, flags: Flags, opts: Options, arc: ArcToBezier): seq<Command> {
    if flags.hasArcs && com.ty == 'A' then
      if typeRel == 'a' then
        if At(com.values, 0) != At(com.values, 1) || opts.arcToCubic then
          arc(Point(cur.lastX, cur.lastY), com.values, opts.arcAccuracy)
        else [com]
      else []
    else [com]
  }

  lemma LowerOfUpper(c: char)
    ensures ToLower(ToUpper(c)) == ToLower(c)
  {
  }

  lemma UpperOfLower(c: char)
    ensures ToUpper(ToLower(c)) == ToUpper(c)
  {
  }

  /** The end point of a relative command of two or more values moves by both
      offsets. */
  lemma EndOfAbsolute(typeRel: char, values: seq<real>, offX: real, offY: real)
    requires |values| == Arity(typeRel)
    ensures |values| >= 2 ==>
      && Absolutize(typeRel, values, offX, offY)[|values| - 2] == values[|values| - 2] + offX
      && Absolutize(typeRel, values, offX, offY)[|values| - 1] == values[|values| - 1] + offY
  {
    AbsolutizeShifts(typeRel, values, offX, offY);
  }

  /** The command made absolute when `isRel`: upper-case letter, values shifted
      by the offsets; an absolute command is kept. */
  function AbsCommand(com: Command, typeRel: char, typeAbs: char, multi: bool, isRel: bool, cur: Cursor): Command {
    if isRel then Command(if multi then ToUpper(com.ty) else typeAbs, Absolutize(typeRel, com.values, cur.offX, cur.offY))
    else com
  }

  /** A command made absolute keeps its kind: its letter is, up to case, the
      letter it had or the letter of its run, and it is upper case. */
  lemma AbsCommandLetter(com: Command, typeRel: char, typeAbs: char, multi: bool, isRel: bool, cur: Cursor)
    requires ToLower(com.ty) == typeRel || (typeRel == 'm' && ToLower(com.ty) == 'l')
    requires typeAbs == ToUpper(typeRel)
    ensures var r := AbsCommand(com, typeRel, typeAbs, multi, isRel, cur);
      && (ToLower(r.ty) == typeRel || (typeRel == 'm' && ToLower(r.ty) == 'l'))
      && (isRel ==> r.ty == ToUpper(r.ty))
  {
    LowerOfUpper(com.ty);
    LowerOfUpper(typeRel);
  }

  /** The update of `lastX`/`lastY` (and `offX`/`offY`) after a command: the end
      of the command as written plus the offset, one axis for `h`/`v`, nothing
      for `z`. */
  function Advance(typeRel: char, values: seq<real>, offX: real, offY: real, cur: Cursor): Cursor {
    var valuesL := |values|;
    var lastX := if valuesL > 1 then values[valuesL - 2] + offX else if typeRel == 'h' then At(values, 0) + offX else cur.lastX;
    var lastY := if valuesL > 1 then values[valuesL - 1] + offY else if typeRel == 'v' then At(values, 0) + offY else cur.lastY;
    Cursor(lastX, lastY, lastX, lastY)
  }

  /** The new current point is the end of the command made absolute, one axis
      for `h`/`v`, and the old one for `z`; the offsets follow it. */
  lemma AdvanceSpec(typeRel: char, values: seq<real>, offX: real, offY: real, cur: Cursor)
    requires |values| == Arity(typeRel)
    ensures var c := Advance(typeRel, values, offX, offY, cur);
      && c.offX == c.lastX && c.offY == c.lastY
      && (|values| >= 2 ==>
            && c.lastX == Absolutize(typeRel, values, offX, offY)[|values| - 2]
            && c.lastY == Absolutize(typeRel, values, offX, offY)[|values| - 1])
      && (typeRel == 'h' ==> c.lastX == Absolutize(typeRel, values, offX, offY)[0] && c.lastY == cur.lastY)
      && (typeRel == 'v' ==> c.lastX == cur.lastX && c.lastY == Absolutize(typeRel, values, offX, offY)[0])
      && (typeRel == 'z' ==> c.lastX == cur.lastX && c.lastY == cur.lastY)
  {
    EndOfAbsolute(typeRel, values, offX, offY);
  }

  datatype StepResult = StepResult(com: Command, pushed: seq<Command>, cursor: Cursor)

  /** One iteration of the conversion loop on the command `com` of a run with
      lower-case letter `typeRel`: make it absolute when `isRel` (otherwise the
      offsets drop to 0), expand shorthands, emit it, and move the current point
      to the end of the command as written plus the offset. */
  function Step(com: Command, typeRel: char, typeAbs: char, multi: bool, isRel: bool, cur: Cursor,
                valuesPrev: seq<real>, flags: Flags, opts: Options, arc: ArcToBezier): StepResult
  {
    var offX := if isRel then cur.offX else 0.0;
    var offY := if isRel then cur.offY else 0.0;
    var com1 := AbsCommand(com, typeRel, typeAbs, multi, isRel, cur);
    var com2 := if flags.hasShorthands then Longhand(com1, cur.lastX, cur.lastY, valuesPrev) else com1;
    var next := Advance(typeRel, com.values, offX, offY, cur);
    StepResult(com2, Emit(com2, typeRel, cur, flags, opts, arc), next)
  }

  /** What one iteration promises: the offsets end on the new current point;
      without shorthands the command keeps its absolute values; `z` leaves the
      current point where it was, not at the subpath start; any other command
      but `h`/`v` ends on the new current point; only an absolute arc is
      replaced by something else than itself. */
  lemma StepSpec(com: Command, typeRel: char, typeAbs: char, multi: bool, isRel: bool, cur: Cursor,
                 valuesPrev: seq<real>, flags: Flags, opts: Options, arc: ArcToBezier)
    requires IsCommand(typeRel) && |com.values| == Arity(typeRel)
    requires ToLower(com.ty) == typeRel || (typeRel == 'm' && ToLower(com.ty) == 'l')
    requires typeAbs == ToUpper(typeRel)
    ensures var r := Step(com, typeRel, typeAbs, multi, isRel, cur, valuesPrev, flags, opts, arc);
      && r.cursor.offX == r.cursor.lastX && r.cursor.offY == r.cursor.lastY
      && (!flags.hasShorthands ==> r.com.values == AbsCommand(com, typeRel, typeAbs, multi, isRel, cur).values)
      && (typeRel == 'z' ==> r.cursor.lastX == cur.lastX && r.cursor.lastY == cur.lastY)
      && (|r.com.values| >= 2 && typeRel != 'h' && typeRel != 'v' ==>
            r.com.values[|r.com.values| - 2] == r.cursor.lastX && r.com.values[|r.com.values| - 1] == r.cursor.lastY)
      && (r.com.ty != 'A' ==> r.pushed == [r.com])
  {
    var offX := if isRel then cur.offX else 0.0;
    var offY := if isRel then cur.offY else 0.0;
    var com1 := AbsCommand(com, typeRel, typeAbs, multi, isRel, cur);
    var com2 := if flags.hasShorthands then Longhand(com1, cur.lastX, cur.lastY, valuesPrev) else com1;
    var r := Step(com, typeRel, typeAbs, multi, isRel, cur, valuesPrev, flags, opts, arc);
    assert r.com == com2 && r.pushed == Emit(com2, typeRel, cur, flags, opts, arc);
    assert r.cursor == Advance(typeRel, com.values, offX, offY, cur);
    AbsCommandLetter(com, typeRel, typeAbs, multi, isRel, cur);
    AdvanceSpec(typeRel, com.values, offX, offY, cur);
    AbsolutizeShifts(typeRel, com.values, cur.offX, cur.offY);
    LonghandSpec(com1, cur.lastX, cur.lastY, valuesPrev);
    assert typeRel != 'h' && typeRel != 'v' ==> com1.ty != 'H' && com1.ty != 'V';
  }

  /** The commands of a run from `i` on still have one tuple each and a letter
      of the run (`l`/`L` for the repeats of a moveto). */
  predicate GroupReady(comChunks: seq<Command>, i: nat, typeRel: char) {
    forall k :: i <= k < |comChunks| ==>
      && |comChunks[k].values| == Arity(typeRel)
      && (ToLower(comChunks[k].ty) == typeRel || (typeRel == 'm' && ToLower(comChunks[k].ty) == 'l'))
  }

  /** The commands a well-formed run is split into are ready for conversion. */
  lemma RunReady(ty: char, values: seq<real>)
    requires IsCommand(ToLower(ty))
    requires WholeTuples(|values|, Arity(ToLower(ty)))
    ensures GroupReady(ComChunks(ty, values, Arity(ToLower(ty))), 0, ToLower(ty))
  {
    var size := Arity(ToLower(ty));
    if size > 0 {
      ComChunksExact(ty, values, size);
    }
  }

  /** The inner conversion loop over the commands of one run, from index `i` on.
      Each command is overwritten in place with its converted form, so the next
      `S` or `T` of the run reflects the converted values of the one before it;
      the first command of a run looks at the last command already output. */
  function Group(comChunks: seq<Command>, i: nat, typeRel: char, typeAbs: char, isRel: bool, cur: Cursor,
                 pathData: seq<Command>, c: nat, flags: Flags, opts: Options, arc: ArcToBezier): (seq<Command>, Cursor)
    decreases |comChunks| - i
  {
    if i >= |comChunks| then (pathData, cur)
    else
      var isRel' := RelOf(comChunks, i, isRel, pathData);
      var st := Step(comChunks[i], typeRel, typeAbs, |comChunks| > 1, isRel', cur, ValuesPrev(comChunks, i, pathData, c), flags, opts, arc);
      Group(comChunks[i := st.com], i + 1, typeRel, typeAbs, isRel', st.cursor, pathData + st.pushed, c, flags, opts, arc)
  }

  /** The values an `S` or `T` at index `i` of a run reflects: the command
      before it in the run (already converted), or for the first command of a
      later run the last command output, or else its own values. */
  function ValuesPrev(comChunks: seq<Command>, i: nat, pathData: seq<Command>, c: nat): seq<real>
    requires i < |comChunks|
  {
    if i > 0 then comChunks[i - 1].values
    else if c > 0 && |pathData| > 0 then pathData[|pathData| - 1].values
    else comChunks[i].values
  }

  /** Whether the command at index `i` is made absolute: in a run of several
      commands, a lower-case letter with something output before it; a single
      command keeps the run's flag. */
  function RelOf(comChunks: seq<Command>, i: nat, isRel: bool, pathData: seq<Command>): bool
    requires i < |comChunks|
  {
    if |comChunks| > 1 then IsLower(comChunks[i].ty) && |pathData| > 0 else isRel
  }

  /** One step of the conversion loop, unrolled. */
  lemma GroupUnfold(comChunks: seq<Command>, i: nat, typeRel: char, typeAbs: char, isRel: bool, cur: Cursor,
                    pathData: seq<Command>, c: nat, flags: Flags, opts: Options, arc: ArcToBezier)
    requires i < |comChunks|
    ensures var st := Step(comChunks[i], typeRel, typeAbs, |comChunks| > 1, RelOf(comChunks, i, isRel, pathData), cur,
                           ValuesPrev(comChunks, i, pathData, c), flags, opts, arc);
      Group(comChunks, i, typeRel, typeAbs, isRel, cur, pathData, c, flags, opts, arc)
      == Group(comChunks[i := st.com], i + 1, typeRel, typeAbs, RelOf(comChunks, i, isRel, pathData), st.cursor,
               pathData + st.pushed, c, flags, opts, arc)
  {
  }

  /** One iteration of the outer loop: split the run into commands, then either
      output them as they are (nothing to convert anywhere in the path) or run
      the conversion loop over them. The first run seeds the offsets with its
      first pair. */
  function ChunkStep(ch: RawChunk, c: nat, num: string -> real, pathData: seq<Command>, cur: Cursor,
                     flags: Flags, opts: Options, arc: ArcToBezier): (seq<Command>, Cursor)
  {
    var ty := ch.letter;
    var typeRel := ToLower(ty);
    var values := Numbers(ch, num);
    var comChunks := ComChunks(ty, values, Arity(typeRel));
    if !flags.Converts() then
      (pathData + comChunks, cur)
    else
      var cur0 := if c == 0 then Cursor(At(values, 0), At(values, 1), At(values, 0), At(values, 1)) else cur;
      var typeFirst := comChunks[0].ty;
      Group(comChunks, 0, typeRel, ToUpper(typeFirst), IsLower(typeFirst) && |pathData| > 0, cur0, pathData, c, flags, opts, arc)
  }

  /** The outer loop from run `c` on. */
  function NormalizeFrom(chunks: seq<RawChunk>, c: nat, num: string -> real, pathData: seq<Command>, cur: Cursor,
                         flags: Flags, opts: Options, arc: ArcToBezier): (r: seq<Command>)
    requires c <= |chunks|
    decreases |chunks| - c, 1
  {
    if c == |chunks| then pathData else RunThenRest(chunks, c, num, pathData, cur, flags, opts, arc)
  }

  /** Run `c` followed by the runs after it. */
  function RunThenRest(chunks: seq<RawChunk>, c: nat, num: string -> real, pathData: seq<Command>, cur: Cursor,
                       flags: Flags, opts: Options, arc: ArcToBezier): (r: seq<Command>)
    requires c < |chunks|
    decreases |chunks| - c, 0
  {
    var st := ChunkStep(chunks[c], c, num, pathData, cur, flags, opts, arc);
    NormalizeFrom(chunks, c + 1, num, st.0, st.1, flags, opts, arc)
  }

  /** The outer loop only appends: what was output before run `c` stays. */
  lemma {:induction false} NormalizeFromKeepsPrefix(chunks: seq<RawChunk>, c: nat, num: string -> real, pathData: seq<Command>,
                                                    cur: Cursor, flags: Flags, opts: Options, arc: ArcToBezier)
    requires c <= |chunks|
    ensures pathData <= NormalizeFrom(chunks, c, num, pathData, cur, flags, opts, arc)
    decreases |chunks| - c
  {
    if c < |chunks| {
      var st := ChunkStep(chunks[c], c, num, pathData, cur, flags, opts, arc);
      NormalizeFromUnfold(chunks, c, num, pathData, cur, flags, opts, arc);
      ChunkStepKeepsPrefix(chunks[c], c, num, pathData, cur, flags, opts, arc);
      NormalizeFromKeepsPrefix(chunks, c + 1, num, st.0, st.1, flags, opts, arc);
      PrefixTrans(pathData, st.0, NormalizeFrom(chunks, c + 1, num, st.0, st.1, flags, opts, arc));
    }
  }

  lemma PrefixTrans<T>(a: seq<T>, b: seq<T>, c: seq<T>)
    requires a <= b && b <= c
    ensures a <= c
  {
    assert a == b[..|a|] && b == c[..|b|];
    assert c[..|b|][..|a|] == c[..|a|];
  }

  /** The conversion loop over one run only appends to the output. */
  lemma {:induction false} GroupKeepsPrefix(comChunks: seq<Command>, i: nat, typeRel: char, typeAbs: char, isRel: bool, cur: Cursor,
                                            pathData: seq<Command>, c: nat, flags: Flags, opts: Options, arc: ArcToBezier)
    ensures pathData <= Group(comChunks, i, typeRel, typeAbs, isRel, cur, pathData, c, flags, opts, arc).0
    decreases |comChunks| - i
  {
    if i < |comChunks| {
      var isRel' := RelOf(comChunks, i, isRel, pathData);
      var st := Step(comChunks[i], typeRel, typeAbs, |comChunks| > 1, isRel', cur, ValuesPrev(comChunks, i, pathData, c), flags, opts, arc);
      GroupUnfold(comChunks, i, typeRel, typeAbs, isRel, cur, pathData, c, flags, opts, arc);
      GroupKeepsPrefix(comChunks[i := st.com], i + 1, typeRel, typeAbs, isRel', st.cursor, pathData + st.pushed, c, flags, opts, arc);
      PrefixTrans(pathData, pathData + st.pushed, Group(comChunks[i := st.com], i + 1, typeRel, typeAbs, isRel', st.cursor, pathData + st.pushed, c, flags, opts, arc).0);
    }
  }

  /** One run of the outer loop only appends to the output. */
  lemma ChunkStepKeepsPrefix(ch: RawChunk, c: nat, num: string -> real, pathData: seq<Command>, cur: Cursor,
                             flags: Flags, opts: Options, arc: ArcToBezier)
    ensures pathData <= ChunkStep(ch, c, num, pathData, cur, flags, opts, arc).0
  {
    var values := Numbers(ch, num);
    var comChunks := ComChunks(ch.letter, values, Arity(ToLower(ch.letter)));
    if flags.Converts() {
      var cur0 := if c == 0 then Cursor(At(values, 0), At(values, 1), At(values, 0), At(values, 1)) else cur;
      var typeFirst := comChunks[0].ty;
      GroupKeepsPrefix(comChunks, 0, ToLower(ch.letter), ToUpper(typeFirst), IsLower(typeFirst) && |pathData| > 0, cur0, pathData, c, flags, opts, arc);
    }
  }

  /** One run of the outer loop, unrolled. */
  lemma NormalizeFromUnfold(chunks: seq<RawChunk>, c: nat, num: string -> real, pathData: seq<Command>, cur: Cursor,
                            flags: Flags, opts: Options, arc: ArcToBezier)
    requires c < |chunks|
    ensures var st := ChunkStep(chunks[c], c, num, pathData, cur, flags, opts, arc);
      NormalizeFrom(chunks, c, num, pathData, cur, flags, opts, arc) == NormalizeFrom(chunks, c + 1, num, st.0, st.1, flags, opts, arc)
  {
  }

  /** `parsePathDataNormalized` on a tokenised path: the output is never empty
      and its first command is the moveto `M`. */
  function Normalize(chunks: seq<RawChunk>, num: string -> real, opts: Options, arc: ArcToBezier): (r: seq<Command>)
    requires WellFormed(chunks)
    ensures |r| > 0 && r[0].ty == 'M' && |r[0].values| == 2
  {
    var flags := FlagsOf(chunks, opts);
    var pd := NormalizeFrom(chunks, 0, num, [], Cursor(0.0, 0.0, 0.0, 0.0), flags, opts, arc);
    NormalizeStarts(chunks, num, Cursor(0.0, 0.0, 0.0, 0.0), flags, opts, arc);
    pd[0 := Command('M', pd[0].values)]
  }

  /** The first run, a moveto, outputs at least one command, and the first of
      them holds one pair, converted or not. */
  lemma ChunkStarts(ch: RawChunk, num: string -> real, cur: Cursor, flags: Flags, opts: Options, arc: ArcToBezier)
    requires GoodCount(ch) && ToLower(ch.letter) == 'm'
    ensures var r := ChunkStep(ch, 0, num, [], cur, flags, opts, arc).0;
      |r| > 0 && |r[0].values| == 2
  {
    var ty := ch.letter;
    var values := Numbers(ch, num);
    var comChunks := ComChunks(ty, values, 2);
    var pathData: seq<Command> := [];
    RunReady(ty, values);
    if !flags.Converts() {
      assert ([] + comChunks)[0] == comChunks[0];
    } else {
      var cur0 := Cursor(values[0], values[1], values[0], values[1]);
      UpperOfLower(ty);
      GroupFirstPair(comChunks, ToUpper(ty), IsLower(ty) && |pathData| > 0, cur0, pathData, 0, flags, opts, arc);
    }
  }

  /** The output of the outer loop is never empty and starts with one pair. */
  lemma NormalizeStarts(chunks: seq<RawChunk>, num: string -> real, cur: Cursor, flags: Flags, opts: Options, arc: ArcToBezier)
    requires WellFormed(chunks)
    ensures var r := NormalizeFrom(chunks, 0, num, [], cur, flags, opts, arc);
      |r| > 0 && |r[0].values| == 2
  {
    var st := ChunkStep(chunks[0], 0, num, [], cur, flags, opts, arc);
    ChunkStarts(chunks[0], num, cur, flags, opts, arc);
    var r := NormalizeFrom(chunks, 1, num, st.0, st.1, flags, opts, arc);
    NormalizeFromKeepsPrefix(chunks, 1, num, st.0, st.1, flags, opts, arc);
    assert r == NormalizeFrom(chunks, 0, num, [], cur, flags, opts, arc);
    assert r[0] == st.0[0];
  }

  /** What `arcToBezier` returns: cubic `C` commands of six values each. */
  ghost predicate ArcContract(arc: ArcToBezier) {
    forall p, vs, acc, k :: 0 <= k < |arc(p, vs, acc)| ==> arc(p, vs, acc)[k].ty == 'C' && |arc(p, vs, acc)[k].values| == 6
  }

  /** One converted command is ready for sampling, and so is all it pushes, as
      long as an `h`/`v` is made absolute (or is upper-case) and expanded. A
      moveto keeps its one pair. */
  lemma StepReady(com: Command, typeRel: char, typeAbs: char, multi: bool, isRel: bool, cur: Cursor,
                  valuesPrev: seq<real>, flags: Flags, opts: Options, arc: ArcToBezier)
    requires IsCommand(typeRel) && |com.values| == Arity(typeRel)
    requires ToLower(com.ty) == typeRel || (typeRel == 'm' && ToLower(com.ty) == 'l')
    requires typeAbs == ToUpper(typeRel)
    requires ArcContract(arc)
    requires (typeRel == 'h' || typeRel == 'v') ==> flags.hasShorthands && (isRel || !IsLower(com.ty))
    ensures var r := Step(com, typeRel, typeAbs, multi, isRel, cur, valuesPrev, flags, opts, arc);
      && CommandReady(r.com)
      && AllReady(r.pushed)
      && (typeRel == 'm' ==> |r.com.values| == 2)
  {
    var com1 := AbsCommand(com, typeRel, typeAbs, multi, isRel, cur);
    var com2 := if flags.hasShorthands then Longhand(com1, cur.lastX, cur.lastY, valuesPrev) else com1;
    var r := Step(com, typeRel, typeAbs, multi, isRel, cur, valuesPrev, flags, opts, arc);
    assert r.com == com2 && r.pushed == Emit(com2, typeRel, cur, flags, opts, arc);
    AbsCommandLetter(com, typeRel, typeAbs, multi, isRel, cur);
    AbsolutizeShifts(typeRel, com.values, cur.offX, cur.offY);
    assert |com1.values| == Arity(typeRel);
    if (typeRel == 'h' || typeRel == 'v') {
      assert com1.ty == 'H' || com1.ty == 'V';
    }
    LonghandReady(com1, typeRel, cur.lastX, cur.lastY, valuesPrev);
    EmitReady(com2, typeRel, cur, flags, opts, arc);
  }

  /** A command of one tuple of its run is ready for sampling after expansion,
      and also before it unless it is an `h`/`v`; a moveto keeps its pair. */
  lemma LonghandReady(com: Command, typeRel: char, lastX: real, lastY: real, valuesPrev: seq<real>)
    requires IsCommand(typeRel) && |com.values| == Arity(typeRel)
    requires ToLower(com.ty) == typeRel || (typeRel == 'm' && ToLower(com.ty) == 'l')
    requires (typeRel == 'h' || typeRel == 'v') ==> com.ty == 'H' || com.ty == 'V'
    ensures CommandReady(Longhand(com, lastX, lastY, valuesPrev))
    ensures typeRel != 'h' && typeRel != 'v' ==> CommandReady(com)
    ensures typeRel == 'm' ==> |Longhand(com, lastX, lastY, valuesPrev).values| == 2 && |com.values| == 2
  {
    LonghandSpec(com, lastX, lastY, valuesPrev);
  }

  /** What a command ready for sampling adds to the output is ready too, when
      `arcToBezier` returns cubics. */
  lemma EmitReady(com: Command, typeRel: char, cur: Cursor, flags: Flags, opts: Options, arc: ArcToBezier)
    requires ArcContract(arc) && CommandReady(com)
    ensures AllReady(Emit(com, typeRel, cur, flags, opts, arc))
  {
  }

  lemma AppendReady(pd: seq<Command>, pushed: seq<Command>)
    requires AllReady(pd) && AllReady(pushed)
    ensures AllReady(pd + pushed)
  {
    assert forall k :: |pd| <= k < |pd + pushed| ==> (pd + pushed)[k] == pushed[k - |pd|];
  }

  /** The conversion loop over one run outputs only commands ready for
      sampling; started on an empty output with a moveto run, its first
      command has one pair. */
  lemma {:induction false} GroupReadyOut(comChunks: seq<Command>, i: nat, typeRel: char, typeAbs: char, isRel: bool, cur: Cursor,
                                         pathData: seq<Command>, c: nat, flags: Flags, opts: Options, arc: ArcToBezier)
    requires IsCommand(typeRel) && typeAbs == ToUpper(typeRel) && GroupReady(comChunks, i, typeRel)
    requires ArcContract(arc)
    requires AllReady(pathData)
    requires (typeRel == 'h' || typeRel == 'v') ==> flags.hasShorthands && |pathData| > 0
    requires (typeRel == 'h' || typeRel == 'v') && |comChunks| == 1 && i == 0 ==> isRel || !IsLower(comChunks[0].ty)
    ensures var r := Group(comChunks, i, typeRel, typeAbs, isRel, cur, pathData, c, flags, opts, arc);
      AllReady(r.0)
    decreases |comChunks| - i
  {
    if i < |comChunks| {
      var com := comChunks[i];
      var valuesPrev := ValuesPrev(comChunks, i, pathData, c);
      var isRel' := RelOf(comChunks, i, isRel, pathData);
      var st := Step(com, typeRel, typeAbs, |comChunks| > 1, isRel', cur, valuesPrev, flags, opts, arc);
      StepReady(com, typeRel, typeAbs, |comChunks| > 1, isRel', cur, valuesPrev, flags, opts, arc);
      AppendReady(pathData, st.pushed);
      var coms' := comChunks[i := st.com];
      GroupReadyRest(comChunks, i, st.com, typeRel);
      GroupUnfold(comChunks, i, typeRel, typeAbs, isRel, cur, pathData, c, flags, opts, arc);
      GroupReadyOut(coms', i + 1, typeRel, typeAbs, isRel', st.cursor, pathData + st.pushed, c, flags, opts, arc);
    }
  }

  /** Overwriting command `i` leaves the commands after it ready. */
  lemma GroupReadyRest(comChunks: seq<Command>, i: nat, com: Command, typeRel: char)
    requires i < |comChunks| && GroupReady(comChunks, i, typeRel)
    ensures GroupReady(comChunks[i := com], i + 1, typeRel)
  {
  }

  /** A converted moveto keeps its one pair and is pushed as it is. */
  lemma StepMovetoPair(com: Command, typeAbs: char, multi: bool, isRel: bool, cur: Cursor,
                       valuesPrev: seq<real>, flags: Flags, opts: Options, arc: ArcToBezier)
    requires |com.values| == 2 && (ToLower(com.ty) == 'm' || ToLower(com.ty) == 'l') && typeAbs == 'M'
    ensures var r := Step(com, 'm', typeAbs, multi, isRel, cur, valuesPrev, flags, opts, arc);
      |r.com.values| == 2 && r.pushed == [r.com]
  {
    AbsCommandLetter(com, 'm', typeAbs, multi, isRel, cur);
    AbsolutizeShifts('m', com.values, cur.offX, cur.offY);
    LonghandSpec(AbsCommand(com, 'm', typeAbs, multi, isRel, cur), cur.lastX, cur.lastY, valuesPrev);
  }

  /** A moveto run converted onto an empty output starts it with its first
      pair. */
  lemma GroupFirstPair(comChunks: seq<Command>, typeAbs: char, isRel: bool, cur: Cursor,
                       pathData: seq<Command>, c: nat, flags: Flags, opts: Options, arc: ArcToBezier)
    requires typeAbs == 'M' && GroupReady(comChunks, 0, 'm') && |comChunks| > 0 && |pathData| == 0
    ensures var r := Group(comChunks, 0, 'm', typeAbs, isRel, cur, pathData, c, flags, opts, arc);
      |r.0| > 0 && |r.0[0].values| == 2
  {
    var com := comChunks[0];
    var valuesPrev := ValuesPrev(comChunks, 0, pathData, c);
    var isRel' := RelOf(comChunks, 0, isRel, pathData);
    var st := Step(com, 'm', typeAbs, |comChunks| > 1, isRel', cur, valuesPrev, flags, opts, arc);
    StepMovetoPair(com, typeAbs, |comChunks| > 1, isRel', cur, valuesPrev, flags, opts, arc);
    var pd := pathData + st.pushed;
    GroupUnfold(comChunks, 0, 'm', typeAbs, isRel, cur, pathData, c, flags, opts, arc);
    var r := Group(comChunks[0 := st.com], 1, 'm', typeAbs, isRel', st.cursor, pd, c, flags, opts, arc);
    assert pd == [st.com];
    GroupKeepsPrefix(comChunks[0 := st.com], 1, 'm', typeAbs, isRel', st.cursor, pd, c, flags, opts, arc);
    assert r.0[0] == pd[0];
  }

  /** A run of longhand, arc-free commands is ready for sampling as it is cut;
      a moveto run starts with one pair. */
  lemma RunReadyOut(ty: char, values: seq<real>)
    requires IsCommand(ToLower(ty)) && !IsShorthand(ToLower(ty)) && ToLower(ty) != 'a'
    requires WholeTuples(|values|, Arity(ToLower(ty)))
    ensures var run := ComChunks(ty, values, Arity(ToLower(ty)));
      AllReady(run) && (ToLower(ty) == 'm' ==> |run[0].values| == 2)
  {
    var typeRel := ToLower(ty);
    var run := ComChunks(ty, values, Arity(typeRel));
    RunReady(ty, values);
    forall k | 0 <= k < |run| ensures CommandReady(run[k]) {
      assert |run[k].values| == Arity(typeRel);
      assert ToLower(run[k].ty) == typeRel || (typeRel == 'm' && ToLower(run[k].ty) == 'l');
    }
  }

  /** One run, converted or not, outputs only commands ready for sampling when
      expansion is on wherever the run needs it. */
  lemma ChunkReadyOut(ch: RawChunk, c: nat, num: string -> real, pathData: seq<Command>, cur: Cursor,
                      flags: Flags, opts: Options, arc: ArcToBezier)
    requires IsCommand(ToLower(ch.letter)) && GoodCount(ch)
    requires c == 0 ==> ToLower(ch.letter) == 'm'
    requires ArcContract(arc)
    requires AllReady(pathData)
    requires IsShorthand(ToLower(ch.letter)) ==> flags.hasShorthands && |pathData| > 0
    requires ToLower(ch.letter) == 'a' ==> flags.hasArcs
    ensures AllReady(ChunkStep(ch, c, num, pathData, cur, flags, opts, arc).0)
  {
    var ty := ch.letter;
    var typeRel := ToLower(ty);
    var values := Numbers(ch, num);
    var comChunks := ComChunks(ty, values, Arity(typeRel));
    if !flags.Converts() {
      RunReadyOut(ty, values);
      AppendReady(pathData, comChunks);
    } else {
      var cur0 := if c == 0 then Cursor(values[0], values[1], values[0], values[1]) else cur;
      var typeFirst := comChunks[0].ty;
      UpperOfLower(ty);
      RunReady(ty, values);
      GroupReadyOut(comChunks, 0, typeRel, ToUpper(typeFirst), IsLower(typeFirst) && |pathData| > 0, cur0, pathData, c, flags, opts, arc);
    }
  }

  /** The outer loop, from run `c` on, outputs only commands ready for
      sampling. */
  lemma {:induction false} NormalizeFromReady(chunks: seq<RawChunk>, c: nat, num: string -> real, pathData: seq<Command>, cur: Cursor,
                                              opts: Options, arc: ArcToBezier)
    requires WellFormed(chunks) && c <= |chunks|
    requires opts.toLonghands && ArcContract(arc)
    requires AllReady(pathData)
    requires c > 0 ==> |pathData| > 0
    ensures AllReady(NormalizeFrom(chunks, c, num, pathData, cur, FlagsOf(chunks, opts), opts, arc))
    decreases |chunks| - c
  {
    var flags := FlagsOf(chunks, opts);
    if c < |chunks| {
      var ch := chunks[c];
      if IsShorthand(ToLower(ch.letter)) {
        assert 0 <= c < |chunks| && IsShorthand(ToLower(chunks[c].letter));
      }
      if ToLower(ch.letter) == 'a' {
        assert 0 <= c < |chunks| && ToLower(chunks[c].letter) == 'a';
      }
      var st := ChunkStep(ch, c, num, pathData, cur, flags, opts, arc);
      ChunkReadyOut(ch, c, num, pathData, cur, flags, opts, arc);
      ChunkStepKeepsPrefix(ch, c, num, pathData, cur, flags, opts, arc);
      if pathData == [] {
        ChunkStarts(ch, num, cur, flags, opts, arc);
      } else {
        assert pathData[0] == st.0[0];
      }
      NormalizeFromReady(chunks, c + 1, num, st.0, st.1, opts, arc);
    }
  }

  /** With shorthand expansion on (the default) and an `arcToBezier` that
      returns cubics, the parser's output is ready for the sampler: a leading
      `M` with one pair, and every command with the values it is read at. */
  lemma NormalizeReady(chunks: seq<RawChunk>, num: string -> real, opts: Options, arc: ArcToBezier)
    requires WellFormed(chunks) && opts.toLonghands && ArcContract(arc)
    ensures PathReady(Normalize(chunks, num, opts, arc))
  {
    var flags := FlagsOf(chunks, opts);
    var cur0 := Cursor(0.0, 0.0, 0.0, 0.0);
    var pd := NormalizeFrom(chunks, 0, num, [], cur0, flags, opts, arc);
    NormalizeFromReady(chunks, 0, num, [], cur0, opts, arc);
    NormalizeStarts(chunks, num, cur0, flags, opts, arc);
    var r := pd[0 := Command('M', pd[0].values)];
    assert Normalize(chunks, num, opts, arc) == r;
    forall k | 0 <= k < |r| ensures CommandReady(r[k]) {
      if k > 0 {
        assert r[k] == pd[k];
      }
    }
  }

  /** The runs cut into commands and put one after the other, with no
      conversion: the reference the unconverted output is compared with. */
  function SplitAll(chunks: seq<RawChunk>, num: string -> real): seq<Command> {
    if chunks == [] then []
    else
      var ch := chunks[0];
      ComChunks(ch.letter, Numbers(ch, num), Arity(ToLower(ch.letter))) + SplitAll(chunks[1..], num)
  }

  lemma AppendAssoc<T>(a: seq<T>, b: seq<T>, c: seq<T>)
    ensures a + b + c == a + (b + c)
  {
  }

  /** Without conversion a run is output as it is cut. */
  lemma ChunkStepUnconverted(ch: RawChunk, c: nat, num: string -> real, pathData: seq<Command>, cur: Cursor,
                             flags: Flags, opts: Options, arc: ArcToBezier)
    requires !flags.Converts()
    ensures ChunkStep(ch, c, num, pathData, cur, flags, opts, arc).0
         == pathData + ComChunks(ch.letter, Numbers(ch, num), Arity(ToLower(ch.letter)))
  {
  }

  lemma {:induction false} NormalizeFromUnconverted(chunks: seq<RawChunk>, c: nat, num: string -> real, pathData: seq<Command>,
                                                    cur: Cursor, flags: Flags, opts: Options, arc: ArcToBezier)
    requires c <= |chunks| && !flags.Converts()
    ensures NormalizeFrom(chunks, c, num, pathData, cur, flags, opts, arc) == pathData + SplitAll(chunks[c..], num)
    decreases |chunks| - c
  {
    if c == |chunks| {
      assert chunks[c..] == [];
    } else {
      var ch := chunks[c];
      var st := ChunkStep(ch, c, num, pathData, cur, flags, opts, arc);
      var run := ComChunks(ch.letter, Numbers(ch, num), Arity(ToLower(ch.letter)));
      ChunkStepUnconverted(ch, c, num, pathData, cur, flags, opts, arc);
      NormalizeFromUnconverted(chunks, c + 1, num, st.0, st.1, flags, opts, arc);
      assert chunks[c..][0] == ch && chunks[c..][1..] == chunks[c + 1..];
      assert SplitAll(chunks[c..], num) == run + SplitAll(chunks[c + 1..], num);
      AppendAssoc(pathData, run, SplitAll(chunks[c + 1..], num));
    }
  }

  /** When the path has nothing to convert (no relative letter after the
      first, no shorthand, no arc), the output is the runs cut into commands,
      with only the first letter forced to `M`; a relative `m` whose run goes
      on keeps its implicit relative `l` commands. */
  lemma NormalizeUnconverted(chunks: seq<RawChunk>, num: string -> real, opts: Options, arc: ArcToBezier)
    requires WellFormed(chunks) && !FlagsOf(chunks, opts).Converts()
    ensures var s := SplitAll(chunks, num);
      && |s| > 0 && s[0].ty == chunks[0].letter
      && Normalize(chunks, num, opts, arc) == s[0 := Command('M', s[0].values)]
      && (chunks[0].letter == 'M' ==> Normalize(chunks, num, opts, arc) == s)
  {
    NormalizeFromUnconverted(chunks, 0, num, [], Cursor(0.0, 0.0, 0.0, 0.0), FlagsOf(chunks, opts), opts, arc);
    assert chunks[0..] == chunks;
    var s := SplitAll(chunks, num);
    if chunks[0].letter == 'M' {
      assert s[0] == Command('M', s[0].values);
    }
  }

  /** A path written only with the absolute longhand letters `M L C Q Z` has
      nothing to convert, so it is output exactly as its runs cut into single
      commands (`NormalizeUnconverted`). */
  lemma AbsoluteLonghandUnconverted(chunks: seq<RawChunk>, opts: Options)
    requires forall k :: 0 <= k < |chunks| ==> chunks[k].letter in {'M', 'L', 'C', 'Q', 'Z'}
    ensures !FlagsOf(chunks, opts).Converts()
  {
  }

  /** "m 5 5 10 10" alone: the test for relative letters skips the first
      character, so nothing is converted and the implicit lineto stays the
      relative `l`, while the first command is relabelled `M`. */
  lemma LoneRelativeMovetoKeepsRelativeLineto(t: seq<string>, num: string -> real, opts: Options, arc: ArcToBezier)
    requires |t| == 4
    ensures WellFormed([RawChunk('m', t)])
    ensures Normalize([RawChunk('m', t)], num, opts, arc)
         == [Command('M', [num(t[0]), num(t[1])]), Command('l', [num(t[2]), num(t[3])])]
  {
    var chunks := [RawChunk('m', t)];
    assert Tuples(2, 2) && Tuples(4, 2);
    assert GoodCount(chunks[0]);
    assert !FlagsOf(chunks, opts).Converts();
    NormalizeUnconverted(chunks, num, opts, arc);
    var values := Numbers(chunks[0], num);
    assert values == [num(t[0]), num(t[1]), num(t[2]), num(t[3])];
    var rest := Repeated('l', values, 2, 2);
    assert rest == [Command('l', values[2..4])] + Repeated('l', values, 2, 4);
    assert SplitAll(chunks, num) == ComChunks('m', values, 2) + SplitAll(chunks[1..], num);
    var s := SplitAll(chunks, num);
    assert s == [Command('m', values[..2]), Command('l', values[2..4])];
    assert values[..2] == [num(t[0]), num(t[1])] && values[2..4] == [num(t[2]), num(t[3])];
    assert s[0 := Command('M', s[0].values)] == [Command('M', values[..2]), Command('l', values[2..4])];
  }

  /** The splitting of a run into single commands, as the source loops. */
  method SplitRepeated(ty: char, values: seq<real>, chunkSize: nat) returns (comChunks: seq<Command>)
    requires chunkSize > 0 || |values| == 0
    ensures comChunks == ComChunks(ty, values, chunkSize)
  {
    var hasMultiple := |values| > chunkSize;
    var chunk := if hasMultiple then values[..chunkSize] else values;
    comChunks := [Command(ty, chunk)];
    if hasMultiple {
      var typeImplicit := ImplicitType(ty);
      ghost var all := Repeated(typeImplicit, values, chunkSize, chunkSize);
      var i := chunkSize;
      var added: seq<Command> := [];
      while i < |values|
        invariant chunkSize <= i
        invariant added + Repeated(typeImplicit, values, chunkSize, i) == all
        decreases |values| - i
      {
        var j := if i + chunkSize < |values| then i + chunkSize else |values|;
        ghost var rest := Repeated(typeImplicit, values, chunkSize, i + chunkSize);
        assert Repeated(typeImplicit, values, chunkSize, i) == [Command(typeImplicit, values[i..j])] + rest;
        assert added + ([Command(typeImplicit, values[i..j])] + rest) == (added + [Command(typeImplicit, values[i..j])]) + rest;
        added := added + [Command(typeImplicit, values[i..j])];
        i := i + chunkSize;
      }
      assert Repeated(typeImplicit, values, chunkSize, i) == [];
      assert added == all;
      comChunks := comChunks + added;
    }
  }

  /** One pass of the inner conversion loop, as the source writes it: shift a
      relative command (or drop the offsets to 0), expand a shorthand, push the
      command or its cubics, then move the current point. */
  method ConvertCommand(com: Command, typeRel: char, typeAbs: char, multi: bool, isRel: bool,
                        offX: real, offY: real, lastX: real, lastY: real, valuesPrev: seq<real>,
                        flags: Flags, opts: Options, arc: ArcToBezier)
    returns (com': Command, pushed: seq<Command>, offX': real, offY': real, lastX': real, lastY': real)
    requires IsCommand(typeRel) && |com.values| == Arity(typeRel)
    requires ToLower(com.ty) == typeRel || (typeRel == 'm' && ToLower(com.ty) == 'l')
    requires typeAbs == ToUpper(typeRel)
    ensures StepResult(com', pushed, Cursor(offX', offY', lastX', lastY'))
         == Step(com, typeRel, typeAbs, multi, isRel, Cursor(offX, offY, lastX, lastY), valuesPrev, flags, opts, arc)
  {
    ghost var cur := Cursor(offX, offY, lastX, lastY);
    var values := com.values;
    var valuesL := |values|;
    offX', offY' := offX, offY;
    com' := com;
    if isRel {
      com' := Command(if multi then ToUpper(com.ty) else typeAbs, Absolutize(typeRel, values, offX, offY));
    } else {
      offX', offY' := 0.0, 0.0;
    }
    assert com' == AbsCommand(com, typeRel, typeAbs, multi, isRel, cur);
    if flags.hasShorthands {
      com' := Longhand(com', lastX, lastY, valuesPrev);
    }
    ghost var pushedSpec := Emit(com', typeRel, cur, flags, opts, arc);
    pushed := [];
    if flags.hasArcs && com'.ty == 'A' {
      if typeRel == 'a' {
        if At(com'.values, 0) != At(com'.values, 1) || opts.arcToCubic {
          pushed := arc(Point(lastX, lastY), com'.values, opts.arcAccuracy);
        } else {
          pushed := [com'];
        }
      }
    } else {
      pushed := [com'];
    }
    lastX' := if valuesL > 1 then values[valuesL - 2] + offX' else if typeRel == 'h' then values[0] + offX' else lastX;
    lastY' := if valuesL > 1 then values[valuesL - 1] + offY' else if typeRel == 'v' then values[0] + offY' else lastY;
    offX', offY' := lastX', lastY';
    assert pushed == pushedSpec;
    assert Cursor(offX', offY', lastX', lastY') == Advance(typeRel, values, if isRel then offX else 0.0, if isRel then offY else 0.0, cur);
  }

  /** The inner conversion loop over the commands of one run. */
  method ConvertRun(comChunks: seq<Command>, typeRel: char, typeAbs: char, isRel: bool,
                    offX: real, offY: real, lastX: real, lastY: real, pathData: seq<Command>, c: nat,
                    flags: Flags, opts: Options, arc: ArcToBezier)
    returns (pathData': seq<Command>, offX': real, offY': real, lastX': real, lastY': real)
    requires IsCommand(typeRel) && typeAbs == ToUpper(typeRel) && GroupReady(comChunks, 0, typeRel)
    ensures (pathData', Cursor(offX', offY', lastX', lastY'))
         == Group(comChunks, 0, typeRel, typeAbs, isRel, Cursor(offX, offY, lastX, lastY), pathData, c, flags, opts, arc)
  {
    ghost var goal := Group(comChunks, 0, typeRel, typeAbs, isRel, Cursor(offX, offY, lastX, lastY), pathData, c, flags, opts, arc);
    var coms := comChunks;
    var rel := isRel;
    pathData', offX', offY', lastX', lastY' := pathData, offX, offY, lastX, lastY;
    for i := 0 to |coms|
      invariant |coms| == |comChunks| && GroupReady(coms, i, typeRel)
      invariant Group(coms, i, typeRel, typeAbs, rel, Cursor(offX', offY', lastX', lastY'), pathData', c, flags, opts, arc) == goal
    {
      GroupUnfold(coms, i, typeRel, typeAbs, rel, Cursor(offX', offY', lastX', lastY'), pathData', c, flags, opts, arc);
      var valuesPrev := ValuesPrev(coms, i, pathData', c);
      rel := RelOf(coms, i, rel, pathData');
      var com, pushed;
      com, pushed, offX', offY', lastX', lastY' :=
        ConvertCommand(coms[i], typeRel, typeAbs, |coms| > 1, rel, offX', offY', lastX', lastY', valuesPrev, flags, opts, arc);
      pathData' := pathData' + pushed;
      coms := coms[i := com];
    }
  }

  /** One pass of the parser's main loop: split the arc flags, read the
      numbers, cut the run into commands, then output them as they are or
      convert them. */
  method ParseRun(chunks: seq<RawChunk>, c: nat, num: string -> real, pathData: seq<Command>,
                  offX: real, offY: real, lastX: real, lastY: real, flags: Flags, opts: Options, arc: ArcToBezier)
    returns (pathData': seq<Command>, offX': real, offY': real, lastX': real, lastY': real)
    requires WellFormed(chunks) && c < |chunks|
    ensures NormalizeFrom(chunks, c, num, pathData, Cursor(offX, offY, lastX, lastY), flags, opts, arc)
         == NormalizeFrom(chunks, c + 1, num, pathData', Cursor(offX', offY', lastX', lastY'), flags, opts, arc)
  {
    WellFormedRun(chunks, c);
    NormalizeFromUnfold(chunks, c, num, pathData, Cursor(offX, offY, lastX, lastY), flags, opts, arc);
    var ch := chunks[c];
    var ty := ch.letter;
    var typeRel := ToLower(ty);
    var chunkSize := Arity(typeRel);
    var tokens := ch.tokens;
    if typeRel == 'a' && |tokens| != ArcFlags.ArcArity {
      tokens := ArcFlags.SplitArcFlags(tokens);
    }
    var values := seq(|tokens|, k requires 0 <= k < |tokens| => num(tokens[k]));
    assert values == Numbers(ch, num);
    var comChunks := SplitRepeated(ty, values, chunkSize);
    offX', offY', lastX', lastY' := offX, offY, lastX, lastY;
    if !flags.Converts() {
      pathData' := pathData + comChunks;
    } else {
      if c == 0 {
        offX' := values[0];
        offY' := values[1];
        lastX' := offX';
        lastY' := offY';
      }
      var typeFirst := comChunks[0].ty;
      var typeAbs := ToUpper(typeFirst);
      var isRel := IsLower(typeFirst) && |pathData| > 0;
      UpperOfLower(ty);
      RunReady(ty, values);
      pathData', offX', offY', lastX', lastY' :=
        ConvertRun(comChunks, typeRel, typeAbs, isRel, offX', offY', lastX', lastY', pathData, c, flags, opts, arc);
    }
  }

  /** The parser's main loop over the runs. The result is the specification
      `Normalize`. */
  method ParsePathDataNormalized(chunks: seq<RawChunk>, num: string -> real, opts: Options, arc: ArcToBezier)
    returns (pathData: seq<Command>)
    requires WellFormed(chunks)
    ensures pathData == Normalize(chunks, num, opts, arc)
  {
    var flags := FlagsOf(chunks, opts);
    pathData := ParseRuns(chunks, num, flags, opts, arc);
    NormalizeStarts(chunks, num, Cursor(0.0, 0.0, 0.0, 0.0), flags, opts, arc);
    pathData := pathData[0 := Command('M', pathData[0].values)];
  }

  /** The loop over the runs, with the offsets and the current point starting
      at 0. */
  method ParseRuns(chunks: seq<RawChunk>, num: string -> real, flags: Flags, opts: Options, arc: ArcToBezier)
    returns (pathData: seq<Command>)
    requires WellFormed(chunks)
    ensures pathData == NormalizeFrom(chunks, 0, num, [], Cursor(0.0, 0.0, 0.0, 0.0), flags, opts, arc)
  {
    ghost var goal := NormalizeFrom(chunks, 0, num, [], Cursor(0.0, 0.0, 0.0, 0.0), flags, opts, arc);
    pathData := [];
    var offX, offY, lastX, lastY := 0.0, 0.0, 0.0, 0.0;
    for c := 0 to |chunks|
      invariant NormalizeFrom(chunks, c, num, pathData, Cursor(offX, offY, lastX, lastY), flags, opts, arc) == goal
    {
      pathData, offX, offY, lastX, lastY := ParseRun(chunks, c, num, pathData, offX, offY, lastX, lastY, flags, opts, arc);
    }
  }
}
