/** The design mockup (qr-forge-mockup.jsx): the stand-in matrix generator
    with its finder patterns, the shape the previewer gives each dark cell,
    where the previewer puts a logo, and the simulated validation with the
    effect that resets it. A JavaScript string is a sequence of UTF-16 code
    units; `text` below is that sequence. */
module Mockup {
  import opened Wrappers

  /** A UTF-16 code unit (`String.prototype.charCodeAt`). */
  type CodeUnit = c: int | 0 <= c < 0x1_0000

  const Pow32: int := 0x1_0000_0000

  /** ECMAScript ToInt32: the 32-bit signed integer congruent to `v` modulo
      2^32 (what `x | 0` and the operands of `<<` go through). */
  function ToInt32(v: int): (r: int)
    ensures -0x8000_0000 <= r < 0x8000_0000
    ensures (v - r) % Pow32 == 0
  {
    (v + 0x8000_0000) % Pow32 - 0x8000_0000
  }

  /** ToInt32 sees its argument only modulo 2^32. */
  lemma Int32Congruent(a: int, b: int)
    requires (a - b) % Pow32 == 0
    ensures ToInt32(a) == ToInt32(b)
  {
    var k := (a - b) / Pow32;
    assert a == b + Pow32 * k;
    var ra, rb := ToInt32(a), ToInt32(b);
    var ka, kb := (a - ra) / Pow32, (b - rb) / Pow32;
    assert a - ra == Pow32 * ka;
    assert b - rb == Pow32 * kb;
    assert ra - rb == Pow32 * (k - ka + kb);
  }

  /** One step of the loop as written, `(hash << 5) - hash + c` followed by
      `hash |= 0`, is the 32-bit wrapped `31 * hash + c`. */
  lemma ShiftStep(h: int, c: int)
    requires -0x8000_0000 <= h < 0x8000_0000
    ensures ToInt32(ToInt32(h * 32) - h + c) == ToInt32(31 * h + c)
  {
    Int32Congruent(ToInt32(h * 32) - h + c, 31 * h + c);
  }

  /** The string hash: the fold `h := int32(31 * h + unit)` from 0 over the
      code units. */
  function Hash(text: seq<CodeUnit>): (h: int)
    ensures -0x8000_0000 <= h < 0x8000_0000
  {
    if text == [] then 0 else ToInt32(31 * Hash(text[..|text| - 1]) + text[|text| - 1])
  }

  /** `Math.abs`. */
  function Abs(v: int): nat {
    if v < 0 then -v else v
  }

  /** The seed of the data cells, `Math.abs(hash)`. */
  function Seed(text: seq<CodeUnit>): (s: nat)
    ensures s <= 0x8000_0000
  {
    Abs(Hash(text))
  }

  /** Inside one of the three 7x7 corner blocks (`isFP`; the previewer's
      `isEye` is the same condition). */
  predicate InFinder(size: int, x: int, y: int) {
    (x < 7 && y < 7) || (x >= size - 7 && y < 7) || (x < 7 && y >= size - 7)
  }

  /** Inside one of the three 8x8 corner boxes (`isFB`). */
  predicate InBox(size: int, x: int, y: int) {
    (x < 8 && y < 8) || (x >= size - 8 && y < 8) || (x < 8 && y >= size - 8)
  }

  /** The coordinate inside a corner block (`lx`, `ly`). */
  function Local(size: int, v: int): int {
    if v < 7 then v else if v >= size - 7 then v - (size - 7) else v
  }

  /** The finder cell rule as the generator writes it. */
  predicate FinderDark(lx: int, ly: int) {
    lx == 0 || lx == 6 || ly == 0 || ly == 6 || (2 <= lx <= 4 && 2 <= ly <= 4)
  }

  /** The data cell rule: `((seed*(x+1)*(y+1) + 7x + 13y) >>> 0) % 100 < 45`. */
  predicate DataDark(seed: nat, x: nat, y: nat) {
    ((seed * (x + 1) * (y + 1) + x * 7 + y * 13) % Pow32) % 100 < 45
  }

  /** The value of cell (x, y). */
  function Cell(seed: nat, size: nat, x: nat, y: nat): (v: int)
    ensures v == 0 || v == 1
  {
    if InFinder(size, x, y) then
      (if FinderDark(Local(size, x), Local(size, y)) then 1 else 0)
    else if InBox(size, x, y) then 0
    else if DataDark(seed, x, y) then 1 else 0
  }

  function MatrixRow(seed: nat, size: nat, y: nat): seq<int> {
    seq(size, x requires 0 <= x < size => Cell(seed, size, x, y))
  }

  /** The grid `generateQrMatrix(text, size)` returns, as rows from the top. */
  function Matrix(text: seq<CodeUnit>, size: nat): (m: seq<seq<int>>)
    ensures |m| == size
    ensures forall y :: 0 <= y < size ==> |m[y]| == size
    ensures forall y, x :: 0 <= y < size && 0 <= x < size ==> m[y][x] == Cell(Seed(text), size, x, y)
  {
    seq(size, y requires 0 <= y < size => MatrixRow(Seed(text), size, y))
  }

  /** The generator: the hash, then one row per `y`. */
  method GenerateQrMatrix(text: seq<CodeUnit>, size: nat) returns (matrix: seq<seq<int>>)
    ensures matrix == Matrix(text, size)
  {
    var hash := HashText(text);
    var seed := Abs(hash);
    matrix := [];
    for y := 0 to size
      invariant |matrix| == y
      invariant forall j :: 0 <= j < y ==> matrix[j] == MatrixRow(seed, size, j)
    {
      var row := GenerateRow(seed, size, y);
      matrix := matrix + [row];
    }
  }

  /** The hash loop over the code units. */
  method HashText(text: seq<CodeUnit>) returns (hash: int)
    ensures hash == Hash(text)
  {
    hash := 0;
    for i := 0 to |text|
      invariant hash == Hash(text[..i])
    {
      ShiftStep(hash, text[i]);
      assert text[..i + 1][..i] == text[..i];
      hash := ToInt32(ToInt32(hash * 32) - hash + text[i]);
    }
    assert text[..|text|] == text;
  }

  /** The inner loop: one cell per `x` of row `y`. */
  method GenerateRow(seed: nat, size: nat, y: nat) returns (row: seq<int>)
    ensures row == MatrixRow(seed, size, y)
  {
    row := [];
    for x := 0 to size
      invariant |row| == x
      invariant forall k :: 0 <= k < x ==> row[k] == Cell(seed, size, k, y)
    {
      var isFP := (x < 7 && y < 7) || (x >= size - 7 && y < 7) || (x < 7 && y >= size - 7);
      var isFB := (x < 8 && y < 8) || (x >= size - 8 && y < 8) || (x < 8 && y >= size - 8);
      var v;
      if isFP {
        var lx := if x < 7 then x else if x >= size - 7 then x - (size - 7) else x;
        var ly := if y < 7 then y else if y >= size - 7 then y - (size - 7) else y;
        v := if lx == 0 || lx == 6 || ly == 0 || ly == 6 || (lx >= 2 && lx <= 4 && ly >= 2 && ly <= 4) then 1 else 0;
      } else if isFB {
        v := 0;
      } else {
        v := if ((seed * (x + 1) * (y + 1) + x * 7 + y * 13) % Pow32) % 100 < 45 then 1 else 0;
      }
      assert v == Cell(seed, size, x, y);
      row := row + [v];
    }
  }

  /** The finder pattern of section 6.3.3 of ISO/IEC 18004, by rings around
      the block centre: dark at Chebyshev distance 3 (the 7x7 outline), light
      at distance 2, dark at distance 0 and 1 (the 3x3 core). */
  function FinderRing(lx: int, ly: int): (v: int)
    requires 0 <= lx < 7 && 0 <= ly < 7
    ensures v == 0 || v == 1
  {
    var d := if Abs(lx - 3) >= Abs(ly - 3) then Abs(lx - 3) else Abs(ly - 3);
    if d == 3 || d <= 1 then 1 else 0
  }

  /** The top-left corner of each finder block. */
  predicate IsBlockOrigin(size: int, ox: int, oy: int) {
    (ox == 0 && oy == 0) || (ox == size - 7 && oy == 0) || (ox == 0 && oy == size - 7)
  }

  /** Each of the three corner blocks carries the finder pattern, provided the
      grid is wide enough (14) for the blocks not to meet. */
  lemma FinderBlocks(text: seq<CodeUnit>, size: nat, ox: int, oy: int, lx: int, ly: int)
    requires size >= 14 && IsBlockOrigin(size, ox, oy)
    requires 0 <= lx < 7 && 0 <= ly < 7
    ensures Matrix(text, size)[oy + ly][ox + lx] == FinderRing(lx, ly)
  {
    assert InFinder(size, ox + lx, oy + ly);
    assert Local(size, ox + lx) == lx && Local(size, oy + ly) == ly;
  }

  /** The separator of section 6.3.4 of ISO/IEC 18004: the one-cell strip on
      the inner sides of each block is light, provided the grid is wide
      enough (15) for a strip not to run into another block. */
  lemma Separators(text: seq<CodeUnit>, size: nat, k: nat)
    requires size >= 15 && k < 8
    ensures Matrix(text, size)[k][7] == 0 && Matrix(text, size)[7][k] == 0
    ensures Matrix(text, size)[k][size - 8] == 0 && Matrix(text, size)[7][size - 1 - k] == 0
    ensures Matrix(text, size)[size - 1 - k][7] == 0 && Matrix(text, size)[size - 8][k] == 0
  {
  }

  /** Outside the corner boxes every cell follows the data rule. */
  lemma DataCells(text: seq<CodeUnit>, size: nat, x: nat, y: nat)
    requires x < size && y < size && !InBox(size, x, y)
    ensures Matrix(text, size)[y][x] == 1 <==> DataDark(Seed(text), x, y)
  {
  }

  /** How the previewer draws a cell: not at all when it is light, as an eye
      module inside a corner block, as a dot elsewhere. */
  datatype Shape = Blank | Eye | Dot

  function CellShape(m: seq<seq<int>>, size: int, x: nat, y: nat): Shape
    requires y < |m| && x < |m[y]|
  {
    if m[y][x] == 0 then Blank
    else if InFinder(size, x, y) then Eye
    else Dot
  }

  /** The previewer draws eye modules exactly on the dark cells of the finder
      patterns the generator placed. */
  lemma EyesAreFinderCells(text: seq<CodeUnit>, size: nat, x: nat, y: nat)
    requires size >= 14 && x < size && y < size
    ensures CellShape(Matrix(text, size), size, x, y) == Eye <==>
      InFinder(size, x, y) && FinderRing(Local(size, x), Local(size, y)) == 1
  {
    if InFinder(size, x, y) {
      var ox := if x < 7 then 0 else size - 7;
      var oy := if y < 7 then 0 else size - 7;
      FinderBlocks(text, size, ox, oy, x - ox, y - oy);
    }
  }

  /** Dots are exactly the dark data cells: nothing in a separator is drawn. */
  lemma DotsAreDataCells(text: seq<CodeUnit>, size: nat, x: nat, y: nat)
    requires size >= 15 && x < size && y < size
    ensures CellShape(Matrix(text, size), size, x, y) == Dot <==>
      !InBox(size, x, y) && DataDark(Seed(text), x, y)
  {
  }

  /** `config.content || "https://example.com"` as code units. */
  const PreviewDefault: seq<CodeUnit> :=
    [0x68, 0x74, 0x74, 0x70, 0x73, 0x3A, 0x2F, 0x2F, 0x65, 0x78, 0x61, 0x6D, 0x70, 0x6C, 0x65, 0x2E, 0x63, 0x6F, 0x6D]

  /** The grid the previewer draws: the default 33 cells a side. */
  function PreviewMatrix(content: seq<CodeUnit>): (m: seq<seq<int>>)
    ensures |m| == 33
    ensures content != [] ==> m == Matrix(content, 33)
    ensures content == [] ==> m == Matrix(PreviewDefault, 33)
  {
    Matrix(if content == [] then PreviewDefault else content, 33)
  }

  /** `logoPosition`. */
  datatype LogoPosition = Center | TopLeft | TopRight | BottomLeft | AllCorners

  /** Where a logo is drawn: the middle of the canvas, or the centre of a cell. */
  datatype Anchor = CanvasCentre | CellCentre(x: int, y: int)

  /** The logos the previewer draws; an unset position counts as the centre. */
  function LogoAnchors(logo: bool, position: Option<LogoPosition>, size: int): seq<Anchor> {
    if !logo then []
    else
      match position.GetOr(Center)
      case Center => [CanvasCentre]
      case TopLeft => [CellCentre(3, 3)]
      case TopRight => [CellCentre(size - 4, 3)]
      case BottomLeft => [CellCentre(3, size - 4)]
      case AllCorners => [CellCentre(3, 3), CellCentre(size - 4, 3), CellCentre(3, size - 4)]
  }

  /** No logo without `logo`; three for all corners, one otherwise. */
  lemma LogoCount(logo: bool, position: Option<LogoPosition>, size: int)
    ensures |LogoAnchors(logo, position, size)| ==
      if !logo then 0 else if position == Some(AllCorners) then 3 else 1
    ensures logo && position.None? ==> LogoAnchors(logo, position, size) == [CanvasCentre]
  {
  }

  /** Every corner logo sits on the centre module of a finder pattern, which
      is dark. */
  lemma LogosOnEyeCentres(text: seq<CodeUnit>, logo: bool, position: Option<LogoPosition>, size: nat, i: int)
    requires size >= 14 && 0 <= i < |LogoAnchors(logo, position, size)|
    requires LogoAnchors(logo, position, size)[i].CellCentre?
    ensures var a := LogoAnchors(logo, position, size)[i];
      0 <= a.x < size && 0 <= a.y < size &&
      InFinder(size, a.x, a.y) && Local(size, a.x) == 3 && Local(size, a.y) == 3 &&
      Matrix(text, size)[a.y][a.x] == 1
  {
    var a := LogoAnchors(logo, position, size)[i];
    var ox := if a.x < 7 then 0 else size - 7;
    var oy := if a.y < 7 then 0 else size - 7;
    FinderBlocks(text, size, ox, oy, 3, 3);
  }

  /** `ecLevel`. */
  datatype EcLevel = L | M | Q | H

  /** What the simulated check reads: `content`, `showLogo`, `logoPosition`,
      `logoSize` and `ecLevel`. */
  datatype Inputs = Inputs(content: seq<CodeUnit>, showLogo: bool, logoPosition: Option<LogoPosition>,
                           logoSize: int, ecLevel: EcLevel)

  /** The other settings whose change resets the verdict. */
  datatype Look = Look(dotStyle: string, eyeStyle: string, fgColor: string, bgColor: string,
                       showGradient: bool, gradFrom: string, gradTo: string, logoShape: string,
                       transparentBg: bool)

  datatype Verdict = Pass | Warn | Fail

  /** `validationState`. */
  datatype ValidationState = Idle | Validating | Shown(verdict: Verdict)

  predicate CornerLogo(i: Inputs) {
    i.showLogo && i.logoPosition.Some? && i.logoPosition.value != Center
  }

  predicate LowEc(i: Inputs) {
    i.ecLevel == L || i.ecLevel == M
  }

  /** The verdict the timer callback of `handleValidate` computes. */
  function Heuristic(i: Inputs): Verdict {
    if |i.content| < 2 then Fail
    else if CornerLogo(i) && i.logoPosition == Some(AllCorners) && LowEc(i) then Fail
    else if CornerLogo(i) && LowEc(i) then Warn
    else if i.showLogo && i.logoSize > 30 && LowEc(i) then Warn
    else Pass
  }

  /** The decision table, verdict by verdict. */
  lemma HeuristicTable(i: Inputs)
    ensures Heuristic(i) == Fail <==>
      |i.content| < 2 || (i.showLogo && i.logoPosition == Some(AllCorners) && LowEc(i))
    ensures Heuristic(i) == Warn <==>
      |i.content| >= 2 && i.showLogo && LowEc(i) &&
      (i.logoPosition in {Some(TopLeft), Some(TopRight), Some(BottomLeft)} ||
       (!CornerLogo(i) && i.logoSize > 30))
    ensures Heuristic(i) == Pass <==>
      |i.content| >= 2 && (!i.showLogo || !LowEc(i) || (!CornerLogo(i) && i.logoSize <= 30))
  {
  }

  /** With error correction Q or H, or without a logo, only the length of
      the content matters. */
  lemma HighEcPasses(i: Inputs)
    requires !LowEc(i) || !i.showLogo
    ensures Heuristic(i) == if |i.content| < 2 then Fail else Pass
  {
  }

  /** The mockup's validation state: the settings, the shown state, and the
      `setTimeout` callbacks still to fire, each holding the inputs it
      captured. Every callback waits the same 1200 ms, so they fire in the
      order they were scheduled. */
  class Generator {
    var inputs: Inputs
    var look: Look
    var state: ValidationState
    var timers: seq<Inputs>

    constructor(inputs0: Inputs, look0: Look)
      ensures inputs == inputs0 && look == look0 && state == Idle && timers == []
    {
      inputs, look, state, timers := inputs0, look0, Idle, [];
    }

    /** A shown verdict is the verdict for the current settings, and every
        pending callback holds the current settings. */
    predicate Consistent()
      reads this
    {
      (forall k :: 0 <= k < |timers| ==> timers[k] == inputs) &&
      (state.Shown? ==> state.verdict == Heuristic(inputs))
    }

    /** A settings change as written: the reset effect sets `idle` when a
        dependency changed; the pending callbacks are left to fire. */
    method Edit(newInputs: Inputs, newLook: Look)
      modifies this`inputs, this`look, this`state
      ensures inputs == newInputs && look == newLook
      ensures state == if newInputs != old(inputs) || newLook != old(look) then Idle else old(state)
    {
      if newInputs != inputs || newLook != look {
        state := Idle;
      }
      inputs, look := newInputs, newLook;
    }

    /** `handleValidate`: show `validating` and schedule the check. */
    method Validate()
      modifies this`state, this`timers
      ensures state == Validating && timers == old(timers) + [inputs]
      ensures old(Consistent()) ==> Consistent()
    {
      state := Validating;
      timers := timers + [inputs];
    }

    /** The oldest pending callback fires and shows its verdict. */
    method Fire()
      requires timers != []
      modifies this`state, this`timers
      ensures state == Shown(Heuristic(old(timers)[0])) && timers == old(timers)[1..]
      ensures old(Consistent()) ==> Consistent()
    {
      state := Shown(Heuristic(timers[0]));
      timers := timers[1..];
    }

    /** A settings change that also cancels the pending callbacks
        (`clearTimeout`) when it resets the verdict. */
    method EditCancelling(newInputs: Inputs, newLook: Look)
      requires Consistent()
      modifies this`inputs, this`look, this`state, this`timers
      ensures inputs == newInputs && look == newLook
      ensures state == if newInputs != old(inputs) || newLook != old(look) then Idle else old(state)
      ensures timers == if newInputs != old(inputs) || newLook != old(look) then [] else old(timers)
      ensures Consistent()
    {
      if newInputs != inputs || newLook != look {
        state := Idle;
        timers := [];
      }
      inputs, look := newInputs, newLook;
    }

  }

  /** The stale verdict: validate "ab" with no logo, clear the content before
      the callback fires, and the screen shows `pass` for empty content,
      whose own verdict is `fail`. */
  method StaleVerdict() returns (shown: ValidationState, current: Verdict)
    ensures shown == Shown(Pass) && current == Fail
  {
    var look := Look("rounded", "rounded", "#1a1a2e", "#ffffff", false, "#1a1a2e", "#e94560", "square", false);
    var g := new Generator(Inputs([0x61, 0x62], false, Some(Center), 25, M), look);
    g.Validate();
    g.Edit(g.inputs.(content := []), look);
    g.Fire();
    shown, current := g.state, Heuristic(g.inputs);
  }

  /** The same sequence with the cancelling edit shows nothing stale. */
  method CancelledVerdict() returns (shown: ValidationState, timersLeft: nat)
    ensures shown == Idle && timersLeft == 0
  {
    var look := Look("rounded", "rounded", "#1a1a2e", "#ffffff", false, "#1a1a2e", "#e94560", "square", false);
    var g := new Generator(Inputs([0x61, 0x62], false, Some(Center), 25, M), look);
    g.Validate();
    g.EditCancelling(g.inputs.(content := []), look);
    shown, timersLeft := g.state, |g.timers|;
  }
}
