/**
 * generatePixelAvatar of src/utils/pixelAvatar.js: a user name becomes a
 * 100x100 SVG image of a mirror-symmetric 5x5 grid of 20x20 squares.
 *
 * The name is taken as the sequence of its UTF-16 code units, which is what
 * `split('')` and `charCodeAt` see. All arithmetic is on naturals: the only
 * non-integer value of the source, `random(n) > 0.5` with
 * `random(n) = ((seed * (n + 1)) % 100) / 100`, holds exactly when the
 * integer `(seed * (n + 1)) % 100` exceeds 50.
 */
module PixelAvatar {

  /** A UTF-16 code unit: what String.prototype.charCodeAt returns. */
  type CodeUnit = c: int | 0 <= c < 0x1_0000

  /** A grid position (row, column). */
  type Cell = (nat, nat)

  const GridSize := 5
  const PixelSize := 20

  // ---------------------------------------------------------------------------
  // Seed and colours

  /** The sum of the code units, accumulated from the left as `reduce` does. */
  function Seed(username: seq<CodeUnit>): (seed: nat)
    ensures seed <= 0xFFFF * |username|
  {
    if username == [] then 0 else Seed(username[..|username| - 1]) + username[|username| - 1]
  }

  lemma {:induction false} SeedConcat(a: seq<CodeUnit>, b: seq<CodeUnit>)
    ensures Seed(a + b) == Seed(a) + Seed(b)
    decreases |b|
  {
    if b == [] {
      assert a + b == a;
    } else {
      assert (a + b)[..|a + b| - 1] == a + b[..|b| - 1];
      SeedConcat(a, b[..|b| - 1]);
    }
  }

  /** Taking one code unit out of a name lowers its seed by that code unit. */
  lemma {:induction false} SeedRemove(b: seq<CodeUnit>, k: nat)
    requires k < |b|
    ensures Seed(b) == Seed(b[..k] + b[k + 1..]) + b[k]
  {
    var left, x, right := b[..k], b[k], b[k + 1..];
    assert b == (left + [x]) + right;
    assert Seed([x]) == x by {
      assert [x][..0] == [];
    }
    calc {
      Seed(b);
      { SeedConcat(left + [x], right); }
      Seed(left + [x]) + Seed(right);
      { SeedConcat(left, [x]); }
      Seed(left) + x + Seed(right);
      { SeedConcat(left, right); }
      Seed(left + right) + x;
    }
  }

  lemma MultisetCancel<T>(p: multiset<T>, q: multiset<T>, x: T)
    requires p + multiset{x} == q + multiset{x}
    ensures p == q
  {
    forall y ensures p[y] == q[y] {
      assert (p + multiset{x})[y] == (q + multiset{x})[y];
    }
  }

  /** Reordering the characters of a name (an anagram) does not change its seed. */
  lemma {:induction false} SeedPermutation(a: seq<CodeUnit>, b: seq<CodeUnit>)
    requires multiset(a) == multiset(b)
    ensures Seed(a) == Seed(b)
    decreases |a|
  {
    if a != [] {
      var init, x := a[..|a| - 1], a[|a| - 1];
      assert a == init + [x];
      assert x in multiset(b);
      var k :| 0 <= k < |b| && b[k] == x;
      var rest := b[..k] + b[k + 1..];
      assert b == b[..k] + [x] + b[k + 1..];
      MultisetCancel(multiset(init), multiset(rest), x);
      SeedPermutation(init, rest);
      SeedRemove(b, k);
    }
  }

  /** The main hue, `seed % 360`. */
  function Hue(seed: nat): (hue: nat)
    ensures hue < 360 && (seed - hue) % 360 == 0
  {
    seed % 360
  }

  /** The background hue, `(hue + 40) % 360`: 40 degrees further round the colour wheel. */
  function SecondaryHue(seed: nat): (hue: nat)
    ensures hue < 360 && (hue - Hue(seed)) % 360 == 40
  {
    (Hue(seed) + 40) % 360
  }

  // ---------------------------------------------------------------------------
  // The grid

  /** `random(n)` of the source scaled by 100: `(seed * (n + 1)) % 100`. */
  function RandomPercent(seed: nat, n: nat): (p: nat)
    ensures p < 100
  {
    (seed * (n + 1)) % 100
  }

  /** Whether square (i, j) of the left three columns is drawn: `random(i * 5 + j) > 0.5`. */
  predicate Filled(seed: nat, i: nat, j: nat)
  {
    RandomPercent(seed, i * GridSize + j) > 50
  }

  /** Columns 3 and 4 copy columns 1 and 0. */
  function SourceColumn(j: nat): nat
    requires j < GridSize
  {
    if j < 3 then j else 4 - j
  }

  /** The 5x5 grid the nested loops build. */
  function Grid(seed: nat): (grid: seq<seq<bool>>)
    ensures |grid| == GridSize
    ensures forall i :: 0 <= i < GridSize ==> |grid[i]| == GridSize
    ensures forall i, j :: 0 <= i < GridSize && 0 <= j < GridSize ==> grid[i][j] == grid[i][4 - j]
    ensures forall i, j :: 0 <= i < GridSize && 0 <= j < 3 ==>
              (grid[i][j] <==> RandomPercent(seed, i * GridSize + j) > 50)
  {
    seq(GridSize, i requires 0 <= i < GridSize =>
      seq(GridSize, j requires 0 <= j < GridSize => Filled(seed, i, SourceColumn(j))))
  }

  // ---------------------------------------------------------------------------
  // Text

  function Digit(d: nat): (c: char)
    requires d < 10
    ensures '0' <= c <= '9' && c as int - '0' as int == d
  {
    ('0' as int + d) as char
  }

  predicate IsDigits(s: string)
  {
    forall k :: 0 <= k < |s| ==> '0' <= s[k] <= '9'
  }

  /** The number a string of decimal digits denotes. */
  function DigitsValue(s: string): nat
    requires IsDigits(s)
  {
    if s == [] then 0 else DigitsValue(s[..|s| - 1]) * 10 + (s[|s| - 1] as int - '0' as int)
  }

  /** `${n}` for a non-negative integer: decimal digits without leading zeros. */
  function Decimal(n: nat): (s: string)
    ensures 1 <= |s| && IsDigits(s)
    ensures s[0] == '0' ==> n == 0 && |s| == 1
    ensures DigitsValue(s) == n
  {
    if n < 10 then [Digit(n)]
    else
      var s := Decimal(n / 10) + [Digit(n % 10)];
      assert s[..|s| - 1] == Decimal(n / 10);
      s
  }

  /** `hsl(${hue}, 60%, 50%)`. */
  function Hsl(hue: nat): string
  {
    "hsl(" + Decimal(hue) + ", 60%, 50%)"
  }

  /** The rect element of one drawn square, at x = j * 20, y = i * 20. */
  function RectTag(x: nat, y: nat, fill: string): string
  {
    "<rect x=\"" + Decimal(x) + "\" y=\"" + Decimal(y) +
    "\" width=\"20\" height=\"20\" fill=\"" + fill + "\" />"
  }

  /** `parts.join('')`. */
  function Join(parts: seq<string>): string
  {
    if parts == [] then "" else parts[0] + Join(parts[1..])
  }

  /** The inner callback: a rect for a true cell, the empty string for a false one. */
  function CellSvg(cell: bool, i: nat, j: nat, fill: string): string
  {
    if cell then RectTag(j * PixelSize, i * PixelSize, fill) else ""
  }

  /** `row.map((cell, j) => ...).join('')`. */
  function RowSvg(row: seq<bool>, i: nat, fill: string): string
  {
    Join(seq(|row|, j requires 0 <= j < |row| => CellSvg(row[j], i, j, fill)))
  }

  /** `grid.map((row, i) => ...).join('')`. */
  function BodySvg(grid: seq<seq<bool>>, fill: string): string
  {
    Join(seq(|grid|, i requires 0 <= i < |grid| => RowSvg(grid[i], i, fill)))
  }

  const SvgOpen := "<svg width=\"100\" height=\"100\" viewBox=\"0 0 100 100\" xmlns=\"http://www.w3.org/2000/svg\">"

  /** The full-size background square. */
  function Background(fill: string): string
  {
    "<rect width=\"100\" height=\"100\" fill=\"" + fill + "\" />"
  }

  /** The returned template literal, line breaks and indentation included. */
  function Document(secondary: string, body: string): string
  {
    SvgOpen + "\n      " + Background(secondary) + "\n      " + body + "\n    </svg>"
  }

  /** What generatePixelAvatar returns for `username`. */
  function AvatarSvg(username: seq<CodeUnit>): (svg: string)
    ensures SvgOpen + "\n      " + Background(Hsl(SecondaryHue(Seed(username)))) <= svg
  {
    var seed := Seed(username);
    Document(Hsl(SecondaryHue(seed)), BodySvg(Grid(seed), Hsl(Hue(seed))))
  }

  /** generatePixelAvatar, with the grid built by the source's nested loops. */
  method GeneratePixelAvatar(username: seq<CodeUnit>) returns (svg: string)
    ensures svg == AvatarSvg(username)
  {
    var seed := Seed(username);
    var hue := Hue(seed);
    var mainColor := Hsl(hue);
    var secondaryColor := Hsl((hue + 40) % 360);

    var grid: seq<seq<bool>> := [];
    for i := 0 to GridSize
      invariant |grid| == i
      invariant forall k :: 0 <= k < i ==> grid[k] == Grid(seed)[k]
    {
      var row: seq<bool> := [];
      for j := 0 to 3
        invariant |row| == j
        invariant forall c :: 0 <= c < j ==> row[c] == Filled(seed, i, c)
      {
        row := row + [RandomPercent(seed, i * GridSize + j) > 50];
      }
      row := row + [row[1]];
      row := row + [row[0]];
      grid := grid + [row];
    }
    assert grid == Grid(seed);
    svg := Document(secondaryColor, BodySvg(grid, mainColor));
  }

  // ---------------------------------------------------------------------------
  // One rect per drawn square

  /** Row-major order on grid positions. */
  predicate Before(c: Cell, d: Cell)
  {
    c.0 < d.0 || (c.0 == d.0 && c.1 < d.1)
  }

  predicate Sorted(cells: seq<Cell>)
  {
    forall a, b :: 0 <= a < b < |cells| ==> Before(cells[a], cells[b])
  }

  function Flatten(parts: seq<seq<Cell>>): seq<Cell>
  {
    if parts == [] then [] else parts[0] + Flatten(parts[1..])
  }

  /** The position (i, j) if that square is drawn, nothing otherwise. */
  function CellIfFilled(cell: bool, i: nat, j: nat): seq<Cell>
  {
    if cell then [(i, j)] else []
  }

  /** The drawn positions of row `i`, left to right. */
  function RowCells(row: seq<bool>, i: nat): seq<Cell>
  {
    Flatten(seq(|row|, j requires 0 <= j < |row| => CellIfFilled(row[j], i, j)))
  }

  /** The drawn positions of a grid, row by row, left to right. */
  function TrueCells(grid: seq<seq<bool>>): seq<Cell>
  {
    Flatten(seq(|grid|, i requires 0 <= i < |grid| => RowCells(grid[i], i)))
  }

  /** The rect element of one position: x from its column, y from its row. */
  function RectAt(c: Cell, fill: string): string
  {
    RectTag(c.1 * PixelSize, c.0 * PixelSize, fill)
  }

  function Rects(cells: seq<Cell>, fill: string): seq<string>
  {
    seq(|cells|, k requires 0 <= k < |cells| => RectAt(cells[k], fill))
  }

  /** For each part, its rect elements joined. */
  function JoinedParts(parts: seq<seq<Cell>>, fill: string): seq<string>
  {
    seq(|parts|, k requires 0 <= k < |parts| => Join(Rects(parts[k], fill)))
  }

  lemma {:induction false} JoinConcat(a: seq<string>, b: seq<string>)
    ensures Join(a + b) == Join(a) + Join(b)
    decreases |a|
  {
    if a == [] {
      assert a + b == b;
    } else {
      assert (a + b)[1..] == a[1..] + b;
      JoinConcat(a[1..], b);
    }
  }

  lemma {:induction false} InFlatten(parts: seq<seq<Cell>>, c: Cell)
    ensures c in Flatten(parts) <==> exists k :: 0 <= k < |parts| && c in parts[k]
    decreases |parts|
  {
    if parts != [] {
      InFlatten(parts[1..], c);
      if c in Flatten(parts[1..]) {
        var k :| 0 <= k < |parts[1..]| && c in parts[1..][k];
        assert c in parts[k + 1];
      }
      forall k | 1 <= k < |parts| && c in parts[k] ensures c in Flatten(parts[1..]) {
        assert c in parts[1..][k - 1];
      }
    }
  }

  /** Sorted parts, each wholly before the next, flatten to a sorted sequence. */
  lemma {:induction false} FlattenSorted(parts: seq<seq<Cell>>)
    requires forall k :: 0 <= k < |parts| ==> Sorted(parts[k])
    requires forall k, l, x, y :: 0 <= k < l < |parts| && x in parts[k] && y in parts[l] ==> Before(x, y)
    ensures Sorted(Flatten(parts))
    decreases |parts|
  {
    if parts != [] {
      var head, tail := parts[0], Flatten(parts[1..]);
      FlattenSorted(parts[1..]);
      forall a, b | 0 <= a < b < |head + tail|
        ensures Before((head + tail)[a], (head + tail)[b])
      {
        if b >= |head| && a < |head| {
          InFlatten(parts[1..], tail[b - |head|]);
          var l :| 0 <= l < |parts[1..]| && tail[b - |head|] in parts[1..][l];
          assert head[a] in parts[0] && tail[b - |head|] in parts[l + 1];
        }
      }
    }
  }

  /** Joining the rects of a flattened list is joining each part's rects in turn. */
  lemma {:induction false} JoinRectsFlatten(parts: seq<seq<Cell>>, fill: string)
    ensures Join(Rects(Flatten(parts), fill)) == Join(JoinedParts(parts, fill))
    decreases |parts|
  {
    if parts != [] {
      var head, tail := parts[0], Flatten(parts[1..]);
      assert Rects(head + tail, fill) == Rects(head, fill) + Rects(tail, fill);
      JoinConcat(Rects(head, fill), Rects(tail, fill));
      JoinRectsFlatten(parts[1..], fill);
      assert JoinedParts(parts, fill)[1..] == JoinedParts(parts[1..], fill);
    }
  }

  /** One row's markup is the rects of its drawn positions, in order. */
  lemma RowSvgIsRects(row: seq<bool>, i: nat, fill: string)
    ensures RowSvg(row, i, fill) == Join(Rects(RowCells(row, i), fill))
  {
    var parts := seq(|row|, j requires 0 <= j < |row| => CellIfFilled(row[j], i, j));
    JoinRectsFlatten(parts, fill);
    forall j | 0 <= j < |row|
      ensures Join(Rects(parts[j], fill)) == CellSvg(row[j], i, j, fill)
    {
      if row[j] {
        assert Rects(parts[j], fill) == [RectAt((i, j), fill)];
        assert Join([RectAt((i, j), fill)]) == RectAt((i, j), fill) + Join([]);
      }
    }
    assert JoinedParts(parts, fill) == seq(|row|, j requires 0 <= j < |row| => CellSvg(row[j], i, j, fill));
  }

  /**
   * The body of the image is one rect per drawn square, in row-major order,
   * placed at x = 20 * column and y = 20 * row; undrawn squares add nothing.
   */
  lemma BodySvgIsRects(grid: seq<seq<bool>>, fill: string)
    ensures BodySvg(grid, fill) == Join(Rects(TrueCells(grid), fill))
  {
    var parts := seq(|grid|, i requires 0 <= i < |grid| => RowCells(grid[i], i));
    JoinRectsFlatten(parts, fill);
    forall i | 0 <= i < |grid|
      ensures Join(Rects(parts[i], fill)) == RowSvg(grid[i], i, fill)
    {
      RowSvgIsRects(grid[i], i, fill);
    }
    assert JoinedParts(parts, fill) == seq(|grid|, i requires 0 <= i < |grid| => RowSvg(grid[i], i, fill));
  }

  /** The drawn positions of a row are those holding true, each once, left to right. */
  lemma RowCellsExact(row: seq<bool>, i: nat)
    ensures forall c :: c in RowCells(row, i) <==> c.0 == i && c.1 < |row| && row[c.1]
    ensures Sorted(RowCells(row, i))
  {
    var parts := seq(|row|, j requires 0 <= j < |row| => CellIfFilled(row[j], i, j));
    forall c ensures c in RowCells(row, i) <==> c.0 == i && c.1 < |row| && row[c.1] {
      InFlatten(parts, c);
      if c.0 == i && c.1 < |row| && row[c.1] {
        assert c in parts[c.1];
      }
    }
    FlattenSorted(parts);
  }

  /** The drawn positions of a grid are exactly its true cells, each once, in row-major order. */
  lemma TrueCellsExact(grid: seq<seq<bool>>)
    ensures forall c :: c in TrueCells(grid) <==> c.0 < |grid| && c.1 < |grid[c.0]| && grid[c.0][c.1]
    ensures Sorted(TrueCells(grid))
  {
    var parts := seq(|grid|, i requires 0 <= i < |grid| => RowCells(grid[i], i));
    forall i | 0 <= i < |grid| ensures Sorted(parts[i]) {
      RowCellsExact(grid[i], i);
    }
    forall c ensures c in TrueCells(grid) <==> c.0 < |grid| && c.1 < |grid[c.0]| && grid[c.0][c.1] {
      InFlatten(parts, c);
      if c.0 < |grid| && c.1 < |grid[c.0]| && grid[c.0][c.1] {
        RowCellsExact(grid[c.0], c.0);
        assert c in parts[c.0];
      }
      if c in TrueCells(grid) {
        var k :| 0 <= k < |parts| && c in parts[k];
        RowCellsExact(grid[k], k);
        assert c.0 == k;
      }
    }
    forall k, l, x, y | 0 <= k < l < |parts| && x in parts[k] && y in parts[l]
      ensures Before(x, y)
    {
      RowCellsExact(grid[k], k);
      RowCellsExact(grid[l], l);
    }
    FlattenSorted(parts);
  }

  /**
   * The avatar is the fixed header, the background in the secondary colour,
   * and then exactly one rect in the main colour per drawn square of the
   * grid, in row-major order.
   */
  lemma AvatarDrawsFilledSquares(username: seq<CodeUnit>)
    ensures var seed := Seed(username);
            var cells := TrueCells(Grid(seed));
            AvatarSvg(username) == Document(Hsl(SecondaryHue(seed)), Join(Rects(cells, Hsl(Hue(seed))))) &&
            (forall c :: c in cells <==> c.0 < GridSize && c.1 < GridSize && Grid(seed)[c.0][c.1]) &&
            Sorted(cells)
  {
    var seed := Seed(username);
    BodySvgIsRects(Grid(seed), Hsl(Hue(seed)));
    TrueCellsExact(Grid(seed));
  }

  /** The seed is all the avatar depends on: names with equal code-unit sums get the same avatar. */
  lemma SameSeedSameAvatar(a: seq<CodeUnit>, b: seq<CodeUnit>)
    requires Seed(a) == Seed(b)
    ensures AvatarSvg(a) == AvatarSvg(b)
  {
  }

  /** Names with the same characters in any order get the same avatar. */
  lemma AnagramsShareAvatar(a: seq<CodeUnit>, b: seq<CodeUnit>)
    requires multiset(a) == multiset(b)
    ensures AvatarSvg(a) == AvatarSvg(b)
  {
    SeedPermutation(a, b);
    SameSeedSameAvatar(a, b);
  }
}
