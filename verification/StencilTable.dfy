// The solver's stencil table. The 256 patch cells fall into families of mirror
// images, and the 120 rows are the mirror images of 16 of them: the table is
// written as those rows and the eight mirrors, and shown to be valid as a whole.
module StencilTable {
  import opened Ocean

  // ---------- Mirrors ----------

  // Mirror s of a step: swap the axes when s is 4 or more, then flip signs.
  function Mirrored(s: int, p: Step): Step {
    var q := if s >= 4 then Step(p.dj, p.di) else p;
    var u := s % 4;
    Step(if u == 1 || u == 3 then -q.di else q.di, if u == 1 || u == 2 then -q.dj else q.dj)
  }

  // Mirror s after mirror t.
  function Compose(s: int, t: int): int {
    var v := if s < 4 then t % 4 else if t % 4 == 2 then 3 else if t % 4 == 3 then 2 else t % 4;
    (if (s >= 4) == (t >= 4) then 0 else 4) + SignsOf(s % 4, v)
  }

  // The signs flipped by two sets of flips, one after the other.
  function SignsOf(u: int, v: int): int {
    if u == 0 then v else if v == 0 then u else if u == v then 0 else 6 - u - v
  }

  lemma ComposeMirrors(s: int, t: int, p: Step)
    requires 0 <= s < 8 && 0 <= t < 8
    ensures 0 <= Compose(s, t) < 8
    ensures Mirrored(Compose(s, t), p) == Mirrored(s, Mirrored(t, p))
  {
  }

  // ---------- Cells ----------

  datatype Kind = Axis | Diagonal | Oblique

  // Cells `start` onwards are the images of (a, b): four of them on an axis or a
  // diagonal, eight otherwise.
  datatype Family = Family(start: nat, kind: Kind, a: int, b: int) {
    predicate Valid() {
      (kind == Axis ==> b == 0) && (kind == Diagonal ==> a == b)
    }

    function Size(): nat {
      if kind == Oblique then 8 else 4
    }

    // The mirror that makes member m out of (a, b).
    function MirrorOf(m: int): int {
      if kind == Axis && m >= 2 then m + 2 else m
    }

    // The member that mirror s makes.
    function Member(s: int): int {
      match kind
      case Axis => if s < 4 then (if s == 0 || s == 2 then 0 else 1) else if s == 4 || s == 7 then 2 else 3
      case Diagonal => s % 4
      case Oblique => s
    }

    function CellOf(m: int): Step {
      Mirrored(MirrorOf(m), Step(a, b))
    }

    lemma MemberImage(s: int, m: int)
      requires Valid() && 0 <= s < 8 && 0 <= m < Size()
      ensures 0 <= Member(Compose(s, MirrorOf(m))) < Size()
      ensures CellOf(Member(Compose(s, MirrorOf(m)))) == Mirrored(s, CellOf(m))
    {
      ComposeMirrors(s, MirrorOf(m), Step(a, b));
      MembersAreMirrors(Compose(s, MirrorOf(m)));
    }

    lemma MembersAreMirrors(s: int)
      requires Valid() && 0 <= s < 8
      ensures 0 <= Member(s) < Size()
      ensures CellOf(Member(s)) == Mirrored(s, Step(a, b))
    {
    }
  }

  function FamilyOf(c: int): (f: Family)
    ensures f.Valid()
  {
    if c < 4 then Family(0, Axis, 1, 0)
    else if c < 8 then Family(4, Diagonal, 1, 1)
    else if c < 16 then Family(8, Oblique, 2, 1)
    else if c < 24 then Family(16, Oblique, 3, 1)
    else if c < 32 then Family(24, Oblique, 3, 2)
    else if c < 40 then Family(32, Oblique, 4, 1)
    else if c < 48 then Family(40, Oblique, 4, 3)
    else if c < 56 then Family(48, Oblique, 5, 1)
    else if c < 64 then Family(56, Oblique, 5, 2)
    else if c < 72 then Family(64, Oblique, 5, 3)
    else if c < 80 then Family(72, Oblique, 6, 1)
    else if c < 88 then Family(80, Oblique, 5, 4)
    else if c < 96 then Family(88, Oblique, 7, 3)
    else if c < 104 then Family(96, Oblique, 8, 1)
    else if c < 112 then Family(104, Oblique, 7, 6)
    else if c < 120 then Family(112, Oblique, 13, 1)
    else if c < 124 then Family(120, Axis, 2, 0)
    else if c < 128 then Family(124, Diagonal, 2, 2)
    else if c < 132 then Family(128, Axis, 3, 0)
    else if c < 136 then Family(132, Axis, 4, 0)
    else if c < 140 then Family(136, Diagonal, 3, 3)
    else if c < 148 then Family(140, Oblique, 4, 2)
    else if c < 152 then Family(148, Axis, 5, 0)
    else if c < 156 then Family(152, Diagonal, 4, 4)
    else if c < 160 then Family(156, Axis, 6, 0)
    else if c < 168 then Family(160, Oblique, 6, 2)
    else if c < 176 then Family(168, Oblique, 6, 3)
    else if c < 180 then Family(176, Axis, 7, 0)
    else if c < 184 then Family(180, Diagonal, 5, 5)
    else if c < 192 then Family(184, Oblique, 7, 1)
    else if c < 200 then Family(192, Oblique, 6, 5)
    else if c < 204 then Family(200, Axis, 8, 0)
    else if c < 208 then Family(204, Diagonal, 6, 6)
    else if c < 212 then Family(208, Axis, 9, 0)
    else if c < 220 then Family(212, Oblique, 9, 1)
    else if c < 224 then Family(220, Axis, 10, 0)
    else if c < 232 then Family(224, Oblique, 10, 1)
    else if c < 236 then Family(232, Axis, 11, 0)
    else if c < 244 then Family(236, Oblique, 11, 1)
    else if c < 248 then Family(244, Axis, 12, 0)
    else Family(248, Oblique, 12, 1)
  }

  function Cell(c: int): Step {
    var f := FamilyOf(c);
    f.CellOf(c - f.start)
  }

  // Where mirror s takes cell c.
  function Image(s: int, c: int): int {
    var f := FamilyOf(c);
    f.start + f.Member(Compose(s, f.MirrorOf(c - f.start)))
  }

  lemma FamilySpan(c: int, m: int)
    requires 0 <= c < 256 && 0 <= m < FamilyOf(c).Size()
    ensures FamilyOf(c).start <= c < FamilyOf(c).start + FamilyOf(c).Size() <= 256
    ensures FamilyOf(FamilyOf(c).start + m) == FamilyOf(c)
  {
  }

  lemma ImageIsMirrored(s: int, c: int)
    requires 0 <= s < 8 && 0 <= c < 256
    ensures 0 <= Image(s, c) < 256
    ensures Cell(Image(s, c)) == Mirrored(s, Cell(c))
  {
    var f := FamilyOf(c);
    FamilySpan(c, 0);
    f.MemberImage(s, c - f.start);
    FamilySpan(c, f.Member(Compose(s, f.MirrorOf(c - f.start))));
    SameFamily(s, c, f, f.Member(Compose(s, f.MirrorOf(c - f.start))));
  }

  lemma SameFamily(s: int, c: int, f: Family, m: int)
    requires f == FamilyOf(c) && m == f.Member(Compose(s, f.MirrorOf(c - f.start)))
    requires FamilyOf(f.start + m) == f
    ensures Image(s, c) == f.start + m && Cell(Image(s, c)) == f.CellOf(m)
  {
    assert f.start + m - f.start == m;
  }

  // The families' own (a, b), in the first octant.
  predicate Listed(p: Step) {
    || (p.dj == 0 && 1 <= p.di <= 12)
    || (p.di == p.dj && 1 <= p.di <= 6)
    || (p.dj == 1 && 2 <= p.di <= 13)
    || (p.dj == 2 && 3 <= p.di <= 6)
    || (p.dj == 3 && 4 <= p.di <= 7)
    || (4 <= p.dj <= 6 && p.di == p.dj + 1)
  }

  // Their patch cells.
  function StartOf(p: Step): nat {
    if p.di == p.dj then if p.di == 1 then 4 else if p.di == 2 then 124 else if p.di == 3 then 136
      else if p.di == 4 then 152 else if p.di == 5 then 180 else 204
    else if p.dj == 0 then if p.di == 1 then 0 else if p.di == 2 then 120 else if p.di == 3 then 128
      else if p.di == 4 then 132 else if p.di == 5 then 148 else if p.di == 6 then 156 else if p.di
      == 7 then 176 else if p.di == 8 then 200 else if p.di == 9 then 208 else if p.di == 10 then
      220 else if p.di == 11 then 232 else 244
    else if p.dj == 1 then if p.di == 2 then 8 else if p.di == 3 then 16 else if p.di == 4 then 32
      else if p.di == 5 then 48 else if p.di == 6 then 72 else if p.di == 7 then 184 else if p.di ==
      8 then 96 else if p.di == 9 then 212 else if p.di == 10 then 224 else if p.di == 11 then 236
      else if p.di == 12 then 248 else 112
    else if p.dj == 2 then if p.di == 3 then 24 else if p.di == 4 then 140 else if p.di == 5 then 56
      else 160
    else if p.dj == 3 then if p.di == 4 then 40 else if p.di == 5 then 64 else if p.di == 6 then 168
      else 88
    else if p.dj == 4 then 80
    else if p.dj == 5 then 192
    else 104
  }

  lemma StartIsInPlace(p: Step)
    requires Listed(p)
    ensures StartOf(p) < 256
    ensures FamilyOf(StartOf(p)).start == StartOf(p)
    ensures FamilyOf(StartOf(p)).a == p.di && FamilyOf(StartOf(p)).b == p.dj
    ensures Cell(StartOf(p)) == p
  {
  }

  // The patch cell of a listed step's image.
  function ImageCell(s: int, p: Step): (c: nat)
    requires 0 <= s < 8 && Listed(p)
    ensures c < 256 && Cell(c) == Mirrored(s, p)
  {
    StartIsInPlace(p);
    ImageIsMirrored(s, StartOf(p));
    Image(s, StartOf(p))
  }

  // ---------- Rows ----------

  const ROWS: int := 16

  // A row's weighted cells, first those of a walk by single cells to its neighbour.
  // An entry's weight is its share over the row's scale.
  datatype Cells = Done | Entry(di: int, dj: int, share: int, rest: Cells)

  // The 16 rows the others are images of.
  function BaseRow(n: int): Cells {
    if n == 0 then
      Entry(1, 0, 1, Done)
    else if n == 1 then
      Entry(1, 1, 1, Done)
    else if n == 2 then
      Entry(1, 0, 1, Entry(2, 1, 1, Entry(1, 1, 1, Done)))
    else if n == 3 then
      Entry(1, 0, 4, Entry(2, 1, 4, Entry(3, 1, 3, Entry(1, 1, 2, Entry(2, 0, 2, Done)))))
    else if n == 4 then
      Entry(1, 1, 3, Entry(2, 1, 3, Entry(3, 2, 2, Entry(1, 0, 1, Entry(2, 2, 1, Done)))))
    else if n == 5 then
      Entry(1, 0, 3, Entry(2, 1, 2, Entry(3, 1, 3, Entry(4, 1, 2, Entry(1, 1, 1, Entry(2, 0, 2,
      Entry(3, 0, 1, Done)))))))
    else if n == 6 then
      Entry(1, 1, 5, Entry(2, 1, 3, Entry(3, 2, 5, Entry(4, 3, 3, Entry(1, 0, 1, Entry(2, 2, 3,
      Entry(3, 3, 1, Done)))))))
    else if n == 7 then
      Entry(1, 0, 8, Entry(2, 1, 4, Entry(3, 1, 6, Entry(4, 1, 8, Entry(5, 1, 5, Entry(1, 1, 2,
      Entry(2, 0, 6, Entry(3, 0, 4, Entry(4, 0, 2, Done)))))))))
    else if n == 8 then
      Entry(1, 0, 12, Entry(2, 1, 17, Entry(3, 1, 17, Entry(4, 1, 8, Entry(5, 2, 10, Entry(1, 1, 8,
      Entry(3, 2, 3, Entry(2, 0, 3, Entry(4, 2, 12, Done)))))))))
    else if n == 9 then
      Entry(1, 1, 20, Entry(2, 1, 26, Entry(3, 2, 26, Entry(4, 2, 20, Entry(5, 3, 15, Entry(1, 0, 10,
      Entry(3, 1, 4, Entry(4, 3, 10, Entry(2, 2, 4, Done)))))))))
    else if n == 10 then
      Entry(1, 0, 5, Entry(2, 1, 2, Entry(3, 1, 3, Entry(4, 1, 4, Entry(5, 1, 5, Entry(6, 1, 3,
      Entry(1, 1, 1, Entry(2, 0, 4, Entry(3, 0, 3, Entry(4, 0, 2, Entry(5, 0, 1, Done)))))))))))
    else if n == 11 then
      Entry(1, 1, 7, Entry(2, 2, 5, Entry(3, 2, 5, Entry(4, 3, 7, Entry(5, 4, 4, Entry(1, 0, 1,
      Entry(2, 1, 3, Entry(3, 3, 3, Entry(4, 4, 1, Done)))))))))
    else if n == 12 then
      Entry(1, 0, 24, Entry(2, 1, 38, Entry(3, 1, 32, Entry(4, 1, 10, Entry(5, 2, 38, Entry(6, 2, 18,
      Entry(7, 3, 21, Tail(12))))))))
    else if n == 13 then
      Entry(1, 0, 7, Entry(2, 1, 2, Entry(3, 1, 3, Entry(4, 1, 4, Entry(5, 1, 5, Entry(6, 1, 6,
      Entry(7, 1, 7, Entry(8, 1, 4, Tail(13)))))))))
    else if n == 14 then
      Entry(1, 1, 11, Entry(2, 2, 9, Entry(3, 2, 5, Entry(4, 3, 7, Entry(5, 4, 9, Entry(6, 5, 11,
      Entry(7, 6, 6, Tail(14))))))))
    else
      Entry(1, 0, 24, Entry(2, 1, 4, Entry(3, 1, 6, Entry(4, 1, 8, Entry(5, 1, 10, Entry(6, 1, 12,
      Entry(7, 1, 14, Entry(8, 1, 16, Entry(9, 1, 18, Entry(10, 1, 20, Entry(11, 1, 22, Entry(12, 1, 24,
      Entry(13, 1, 13, Tail(15))))))))))))))
  }

  // What follows the walk in the longest rows.
  function Tail(n: int): Cells {
    if n == 12 then
      Entry(1, 1, 18, Entry(3, 2, 10, Entry(5, 3, 4, Entry(2, 0, 4, Entry(4, 2, 32, Entry(6, 3, 24,
      Done))))))
    else if n == 13 then
      Entry(1, 1, 1, Entry(2, 0, 6, Entry(3, 0, 5, Entry(4, 0, 4, Entry(5, 0, 3, Entry(6, 0, 2,
      Entry(7, 0, 1, Done)))))))
    else if n == 14 then
      Entry(1, 0, 1, Entry(2, 1, 3, Entry(3, 3, 7, Entry(4, 4, 5, Entry(5, 5, 3, Entry(6, 6, 1, Done))))))
    else
      Entry(1, 1, 2, Entry(2, 0, 22, Entry(3, 0, 20, Entry(4, 0, 18, Entry(5, 0, 16, Entry(6, 0, 14,
      Entry(7, 0, 12, Entry(8, 0, 10, Entry(9, 0, 8, Entry(10, 0, 6, Entry(11, 0, 4, Entry(12, 0, 2,
      Done))))))))))))
  }

  function Scale(n: int): (d: int)
    ensures 0 < d
  {
    if n < 3 then 1 else if n == 3 || n == 6 || n == 10 then 3 else if n == 4 || n == 5 then 2
    else if n == 7 then 5 else if n == 8 then 10 else if n == 9 then 15
    else if n == 11 || n == 13 then 4 else if n == 12 then 21 else if n == 14 then 6 else 13
  }

  // Their neighbours.
  function BaseNeighbour(n: int): Step {
    if n == 0 then Step(1, 0)
    else if n == 1 then Step(1, 1)
    else if n == 2 then Step(2, 1)
    else if n == 3 then Step(3, 1)
    else if n == 4 then Step(3, 2)
    else if n == 5 then Step(4, 1)
    else if n == 6 then Step(4, 3)
    else if n == 7 then Step(5, 1)
    else if n == 8 then Step(5, 2)
    else if n == 9 then Step(5, 3)
    else if n == 10 then Step(6, 1)
    else if n == 11 then Step(5, 4)
    else if n == 12 then Step(7, 3)
    else if n == 13 then Step(8, 1)
    else if n == 14 then Step(7, 6)
    else Step(13, 1)
  }

  // The cell that blocks row 14 though it carries no weight there.
  const BASE_EXTRA: Step := Step(3, 1)

  // Direction k is the image of a row's neighbour under a mirror.
  function RowFor(k: int): int {
    if k < 4 then 0 else if k < 8 then 1 else k / 8 + 1
  }

  function MirrorFor(k: int): int {
    if 2 <= k < 4 then k + 2 else if k < 8 then k % 4 else k % 8
  }

  // Every entry is a listed cell with a positive share.
  predicate Sound(row: Cells) {
    row.Entry? ==> Listed(Step(row.di, row.dj)) && 0 < row.share && Sound(row.rest)
  }

  // The first m entries step by one cell, starting beside (i, j), and end at (a, b).
  predicate WalksTo(row: Cells, i: int, j: int, m: nat, a: int, b: int) {
    if m == 0 then i == a && j == b
    else
      && row.Entry? && Step(row.di - i, row.dj - j).Unit()
      && WalksTo(row.rest, row.di, row.dj, m - 1, a, b)
  }

  predicate SumsTo(row: Cells, total: int) {
    if row.Done? then total == 0 else SumsTo(row.rest, total - row.share)
  }

  // Cell steps along the segment's major axis.
  function Major(p: Step): nat {
    var i, j := if p.di < 0 then -p.di else p.di, if p.dj < 0 then -p.dj else p.dj;
    if i < j then j else i
  }

  ghost predicate BaseSound(n: int) {
    var p := BaseNeighbour(n);
    && Listed(p) && Sound(BaseRow(n))
    && WalksTo(BaseRow(n), 0, 0, Major(p), p.di, p.dj)
    && SumsTo(BaseRow(n), Scale(n) * (2 * Major(p) - 1))
  }

  lemma RowsAreSound(n: int)
    requires 0 <= n < 10
    ensures Sound(BaseRow(n))
  {
    match n {
      case 0 => assert Sound(BaseRow(0));
      case 1 => assert Sound(BaseRow(1));
      case 2 => assert Sound(BaseRow(2));
      case 3 => assert Sound(BaseRow(3));
      case 4 => assert Sound(BaseRow(4));
      case 5 => assert Sound(BaseRow(5));
      case 6 => assert Sound(BaseRow(6));
      case 7 => assert Sound(BaseRow(7));
      case 8 => assert Sound(BaseRow(8));
      case 9 => assert Sound(BaseRow(9));
    }
  }

  lemma LongRowsAreSound(n: int)
    requires 10 <= n < 13
    ensures Sound(BaseRow(n))
  {
    match n {
      case 10 => assert Sound(BaseRow(10));
      case 11 => assert Sound(BaseRow(11));
      case 12 => assert Sound(Tail(12)) && Sound(BaseRow(12));
    }
  }

  lemma LongestRowsAreSound(n: int)
    requires 13 <= n < 16
    ensures Sound(BaseRow(n))
  {
    match n {
      case 13 => assert Sound(Tail(13)) && Sound(BaseRow(13));
      case 14 => assert Sound(Tail(14)) && Sound(BaseRow(14));
      case 15 => assert Sound(Tail(15)) && Sound(BaseRow(15));
    }
  }

  lemma RowsWalk(n: int)
    requires 0 <= n < 16
    ensures WalksTo(BaseRow(n), 0, 0, Major(BaseNeighbour(n)), BaseNeighbour(n).di, BaseNeighbour(n).dj)
  {
    match n {
      case 0 => assert WalksTo(BaseRow(0), 0, 0, 1, 1, 0);
      case 1 => assert WalksTo(BaseRow(1), 0, 0, 1, 1, 1);
      case 2 => assert WalksTo(BaseRow(2), 0, 0, 2, 2, 1);
      case 3 => assert WalksTo(BaseRow(3), 0, 0, 3, 3, 1);
      case 4 => assert WalksTo(BaseRow(4), 0, 0, 3, 3, 2);
      case 5 => assert WalksTo(BaseRow(5), 0, 0, 4, 4, 1);
      case 6 => assert WalksTo(BaseRow(6), 0, 0, 4, 4, 3);
      case 7 => assert WalksTo(BaseRow(7), 0, 0, 5, 5, 1);
      case 8 => assert WalksTo(BaseRow(8), 0, 0, 5, 5, 2);
      case 9 => assert WalksTo(BaseRow(9), 0, 0, 5, 5, 3);
      case 10 => assert WalksTo(BaseRow(10), 0, 0, 6, 6, 1);
      case 11 => assert WalksTo(BaseRow(11), 0, 0, 5, 5, 4);
      case 12 => assert WalksTo(BaseRow(12), 0, 0, 7, 7, 3);
      case 13 => assert WalksTo(BaseRow(13), 0, 0, 8, 8, 1);
      case 14 => assert WalksTo(BaseRow(14), 0, 0, 7, 7, 6);
      case 15 => assert WalksTo(BaseRow(15), 0, 0, 13, 13, 1);
    }
  }

  lemma RowsSum(n: int)
    requires 0 <= n < 16
    ensures SumsTo(BaseRow(n), Scale(n) * (2 * Major(BaseNeighbour(n)) - 1))
  {
    match n {
      case 0 => assert SumsTo(BaseRow(0), 1);
      case 1 => assert SumsTo(BaseRow(1), 1);
      case 2 => assert SumsTo(BaseRow(2), 3);
      case 3 => assert SumsTo(BaseRow(3), 15);
      case 4 => assert SumsTo(BaseRow(4), 10);
      case 5 => assert SumsTo(BaseRow(5), 14);
      case 6 => assert SumsTo(BaseRow(6), 21);
      case 7 => assert SumsTo(BaseRow(7), 45);
      case 8 => assert SumsTo(BaseRow(8), 90);
      case 9 => assert SumsTo(BaseRow(9), 135);
      case 10 => assert SumsTo(BaseRow(10), 33);
      case 11 => assert SumsTo(BaseRow(11), 36);
      case 12 => assert SumsTo(Tail(12), 92) && SumsTo(BaseRow(12), 273);
      case 13 => assert SumsTo(Tail(13), 22) && SumsTo(BaseRow(13), 60);
      case 14 => assert SumsTo(Tail(14), 20) && SumsTo(BaseRow(14), 78);
      case 15 => assert SumsTo(Tail(15), 134) && SumsTo(BaseRow(15), 325);
    }
  }

  lemma BaseRowIsSound(n: int)
    requires 0 <= n < ROWS
    ensures BaseSound(n)
  {
    if n < 10 {
      RowsAreSound(n);
    } else if n < 13 {
      LongRowsAreSound(n);
    } else {
      LongestRowsAreSound(n);
    }
    RowsWalk(n);
    RowsSum(n);
  }

  // ---------- The whole table ----------

  // A row's cells as `image` places them, with weights over the row's scale.
  function CellsOf(row: Cells, image: Step -> nat): (cells: seq<nat>)
    ensures |cells| == Count(row)
    ensures forall n :: 0 <= n < Count(row) ==> cells[n] == image(StepAt(row, n))
  {
    if row.Done? then [] else [image(Step(row.di, row.dj))] + CellsOf(row.rest, image)
  }

  function WeightsOf(row: Cells, image: Step -> nat, scale: int): (w: seq<(nat, real)>)
    requires 0 < scale
    ensures |w| == Count(row)
    ensures forall n :: 0 <= n < Count(row) ==> w[n].0 == image(StepAt(row, n))
    ensures Sound(row) ==> forall n :: 0 <= n < Count(row) ==> 0.0 < w[n].1
  {
    if row.Done? then []
    else [(image(Step(row.di, row.dj)), row.share as real / scale as real)] + WeightsOf(row.rest, image, scale)
  }

  // A row's entry n.
  function Count(row: Cells): nat {
    if row.Done? then 0 else 1 + Count(row.rest)
  }

  function StepAt(row: Cells, n: nat): Step
    requires n < Count(row)
  {
    if n == 0 then Step(row.di, row.dj) else StepAt(row.rest, n - 1)
  }

  lemma {:induction false} StepsAreListed(row: Cells, n: nat)
    requires Sound(row) && n < Count(row)
    ensures Listed(StepAt(row, n))
  {
    if n == 0 {
    } else {
      StepsAreListed(row.rest, n - 1);
    }
  }

  // Mirror s on listed steps.
  function Placing(s: int): Step -> nat
    requires 0 <= s < 8
  {
    (p: Step) => if Listed(p) then ImageCell(s, p) else 0
  }

  function Weights(k: int): seq<(nat, real)>
    requires 0 <= k < NEIGHBOURS
  {
    WeightsOf(BaseRow(RowFor(k)), Placing(MirrorFor(k)), Scale(RowFor(k)))
  }

  function Blocks(k: int): seq<nat>
    requires 0 <= k < NEIGHBOURS
  {
    var image := Placing(MirrorFor(k));
    CellsOf(BaseRow(RowFor(k)), image) + if RowFor(k) == 14 then [image(BASE_EXTRA)] else []
  }

  function Table(): Stencil {
    Stencil(seq(256, c requires 0 <= c < 256 => Cell(c)),
            seq(NEIGHBOURS, k requires 0 <= k < NEIGHBOURS => Weights(k)),
            seq(NEIGHBOURS, k requires 0 <= k < NEIGHBOURS => Blocks(k)))
  }

  lemma {:induction false} WalkSteps(row: Cells, i: int, j: int, m: nat, a: int, b: int)
    requires WalksTo(row, i, j, m, a, b) && 0 < m
    ensures m <= Count(row) && StepAt(row, m - 1) == Step(a, b)
    ensures StepAt(row, 0).Minus(Step(i, j)).Unit()
    ensures forall n :: 1 <= n < m ==> StepAt(row, n).Minus(StepAt(row, n - 1)).Unit()
  {
    if m <= 1 {
    } else {
      WalkSteps(row.rest, row.di, row.dj, m - 1, a, b);
      forall n | 1 <= n < m
        ensures StepAt(row, n).Minus(StepAt(row, n - 1)).Unit()
      {
        assert StepAt(row, n) == StepAt(row.rest, n - 1);
        if n > 1 {
          assert StepAt(row, n - 1) == StepAt(row.rest, n - 2);
        }
      }
    }
  }

  lemma MirrorsKeepUnits(s: int, p: Step, q: Step)
    requires 0 <= s < 8
    ensures p.Minus(q).Unit() ==> Mirrored(s, p).Minus(Mirrored(s, q)).Unit()
  {
  }

  // Two listed steps one cell apart are placed on cells one cell apart.
  lemma PlacedBeside(s: int, p: Step, q: Step)
    requires 0 <= s < 8 && Listed(p) && Listed(q) && p.Minus(q).Unit()
    ensures Placing(s)(p) < 256 && Placing(s)(q) < 256
    ensures Cell(Placing(s)(p)).Minus(Cell(Placing(s)(q))).Unit()
  {
    MirrorsKeepUnits(s, p, q);
  }

  lemma PlacedFirst(s: int, p: Step)
    requires 0 <= s < 8 && Listed(p)
    ensures Placing(s)(p) < 256 && Cell(Placing(s)(p)) == Mirrored(s, p)
    ensures p.Unit() ==> Cell(Placing(s)(p)).Unit()
  {
  }

  // Direction k is where its mirror places the neighbour of its row.
  lemma NeighbourPlaced(k: int)
    requires 0 <= k < NEIGHBOURS
    ensures 0 <= RowFor(k) < ROWS && 0 <= MirrorFor(k) < 8
    ensures StartOf(BaseNeighbour(RowFor(k))) == (if k < 8 then k / 4 * 4 else k / 8 * 8)
  {
  }

  // The family whose first cell direction k's neighbour comes from.
  lemma FamilyAt(k: int, start: int)
    requires 0 <= k < NEIGHBOURS && start == if k < 8 then k / 4 * 4 else k / 8 * 8
    ensures FamilyOf(start).start == start
    ensures FamilyOf(start).kind == if k < 4 then Axis else if k < 8 then Diagonal else Oblique
  {
  }

  lemma ImageOfStart(s: int, start: int, f: Family)
    requires 0 <= s < 8 && f == FamilyOf(start) && f.start == start
    ensures Image(s, start) == start + f.Member(s)
  {
    assert f.MirrorOf(0) == 0 && Compose(s, 0) == s;
  }

  lemma MemberIsK(k: int, start: int, f: Family)
    requires 0 <= k < NEIGHBOURS && start == if k < 8 then k / 4 * 4 else k / 8 * 8
    requires f.kind == if k < 4 then Axis else if k < 8 then Diagonal else Oblique
    ensures 0 <= MirrorFor(k) < 8 && start + f.Member(MirrorFor(k)) == k
  {
  }

  lemma StartPlacesK(k: int, p: Step, start: int)
    requires 0 <= k < NEIGHBOURS && start == if k < 8 then k / 4 * 4 else k / 8 * 8
    requires Listed(p) && StartOf(p) == start
    ensures 0 <= MirrorFor(k) < 8 && ImageCell(MirrorFor(k), p) == k
  {
    FamilyAt(k, start);
    MemberIsK(k, start, FamilyOf(start));
    ImageOfStart(MirrorFor(k), start, FamilyOf(start));
  }

  lemma NeighbourIsK(k: int)
    requires 0 <= k < NEIGHBOURS && Listed(BaseNeighbour(RowFor(k)))
    ensures Placing(MirrorFor(k))(BaseNeighbour(RowFor(k))) == k
  {
    NeighbourPlaced(k);
    StartPlacesK(k, BaseNeighbour(RowFor(k)), if k < 8 then k / 4 * 4 else k / 8 * 8);
  }

  // Every entry of direction k's row is one of its blocking cells.
  lemma EntryBlocks(k: int, n: nat)
    requires 0 <= k < NEIGHBOURS && n < Count(BaseRow(RowFor(k)))
    ensures 0 <= RowFor(k) < ROWS && 0 <= MirrorFor(k) < 8
    ensures Listed(StepAt(BaseRow(RowFor(k)), n))
    ensures n < |Blocks(k)| && Blocks(k)[n] == Placing(MirrorFor(k))(StepAt(BaseRow(RowFor(k)), n))
  {
    NeighbourPlaced(k);
    BaseRowIsSound(RowFor(k));
    StepsAreListed(BaseRow(RowFor(k)), n);
  }

  lemma BlocksFit(k: int, n: nat)
    requires 0 <= k < NEIGHBOURS && n < |Blocks(k)|
    ensures Blocks(k)[n] < 256
  {
    NeighbourPlaced(k);
    if n < Count(BaseRow(RowFor(k))) {
      EntryBlocks(k, n);
    }
  }

  lemma RowWalks(k: int) returns (row: Cells, s: int, m: nat)
    requires 0 <= k < NEIGHBOURS
    ensures row == BaseRow(RowFor(k)) && s == MirrorFor(k) && 0 <= s < 8 && 0 < m <= Count(row)
    ensures StepAt(row, 0).Unit() && StepAt(row, m - 1) == BaseNeighbour(RowFor(k))
    ensures forall n :: 1 <= n < m ==> StepAt(row, n).Minus(StepAt(row, n - 1)).Unit()
    ensures Listed(BaseNeighbour(RowFor(k)))
  {
    NeighbourPlaced(k);
    BaseRowIsSound(RowFor(k));
    var p := BaseNeighbour(RowFor(k));
    row, s, m := BaseRow(RowFor(k)), MirrorFor(k), Major(p);
    WalkSteps(row, 0, 0, m, p.di, p.dj);
  }

  // Direction k's first m blocking cells are the places of a walk.
  lemma WalkIsPlaced(k: int) returns (row: Cells, s: int, m: nat)
    requires 0 <= k < NEIGHBOURS
    ensures 0 <= s < 8 && 0 < m <= Count(row) && m <= |Blocks(k)|
    ensures StepAt(row, 0).Unit() && Placing(s)(StepAt(row, m - 1)) == k
    ensures forall n :: 0 <= n < m ==> Listed(StepAt(row, n)) && Blocks(k)[n] == Placing(s)(StepAt(row, n))
    ensures forall n :: 1 <= n < m ==> StepAt(row, n).Minus(StepAt(row, n - 1)).Unit()
  {
    row, s, m := RowWalks(k);
    NeighbourIsK(k);
    forall n | 0 <= n < m
      ensures Listed(StepAt(row, n)) && n < |Blocks(k)| && Blocks(k)[n] == Placing(s)(StepAt(row, n))
    {
      EntryBlocks(k, n);
    }
    EntryBlocks(k, m - 1);
  }

  // What `place` makes of two steps one cell apart, the table has one cell apart.
  ghost predicate KeepsLinks(cells: seq<Step>, place: Step -> nat) {
    && (forall p, q :: Listed(p) && Listed(q) && p.Minus(q).Unit() ==> LinkedAt(cells, place(p), place(q)))
    && (forall p :: Listed(p) && p.Unit() ==> place(p) < |cells| && cells[place(p)].Unit())
  }

  predicate LinkedAt(cells: seq<Step>, a: nat, b: nat) {
    a < |cells| && b < |cells| && cells[a].Minus(cells[b]).Unit()
  }

  lemma PlacingKeepsLinks(s: int)
    requires 0 <= s < 8
    ensures KeepsLinks(Table().cells, Placing(s))
  {
    forall p, q | Listed(p) && Listed(q) && p.Minus(q).Unit()
      ensures LinkedAt(Table().cells, Placing(s)(p), Placing(s)(q))
    {
      PlacedBeside(s, p, q);
    }
    forall p | Listed(p) && p.Unit()
      ensures Placing(s)(p) < 256 && Table().cells[Placing(s)(p)].Unit()
    {
      PlacedFirst(s, p);
    }
  }

  // `chain` is where `place` puts the steps of a walk by single cells, ending at k, all
  // of them blocking cells of direction k.
  ghost predicate PlacedWalk(t: Stencil, place: Step -> nat, walk: seq<Step>, chain: seq<nat>, k: int)
    requires 0 <= k < |t.blocks|
  {
    && |walk| == |chain| && walk != [] && walk[0].Unit() && chain[|chain| - 1] == k
    && (forall n :: 0 <= n < |walk| ==> Listed(walk[n]) && chain[n] == place(walk[n]) && chain[n] in t.blocks[k])
    && (forall n :: 1 <= n < |walk| ==> walk[n].Minus(walk[n - 1]).Unit())
  }

  // Such a walk is a chain.
  lemma PlacedWalkIsChain(t: Stencil, place: Step -> nat, walk: seq<Step>, chain: seq<nat>, k: int)
    requires 0 <= k < NEIGHBOURS <= |t.cells| && |t.weights| == |t.blocks| == NEIGHBOURS
    requires KeepsLinks(t.cells, place) && PlacedWalk(t, place, walk, chain, k)
    ensures t.IsChain(chain, k)
  {
    forall n | 1 <= n < |walk|
      ensures chain[n] < |t.cells| && t.cells[chain[n]].Minus(t.cells[chain[n - 1]]).Unit()
    {
      assert LinkedAt(t.cells, place(walk[n]), place(walk[n - 1]));
    }
  }

  lemma WalkOf(t: Stencil, place: Step -> nat, row: Cells, m: nat, k: int) returns (walk: seq<Step>, chain: seq<nat>)
    requires 0 <= k < |t.blocks| && 0 < m <= Count(row) && m <= |t.blocks[k]|
    requires StepAt(row, 0).Unit() && place(StepAt(row, m - 1)) == k
    requires forall n :: 0 <= n < m ==> Listed(StepAt(row, n)) && t.blocks[k][n] == place(StepAt(row, n))
    requires forall n :: 1 <= n < m ==> StepAt(row, n).Minus(StepAt(row, n - 1)).Unit()
    ensures PlacedWalk(t, place, walk, chain, k)
  {
    walk := seq(m, n requires 0 <= n < m => StepAt(row, n));
    chain := t.blocks[k][..m];
    assert forall n :: 0 <= n < m ==> walk[n] == StepAt(row, n);
  }

  lemma RowIsPlacedWalk(k: int) returns (s: int, walk: seq<Step>, chain: seq<nat>)
    requires 0 <= k < NEIGHBOURS
    ensures 0 <= s < 8 && PlacedWalk(Table(), Placing(s), walk, chain, k)
  {
    var row, m;
    row, s, m := WalkIsPlaced(k);
    assert Table().blocks[k] == Blocks(k);
    walk, chain := WalkOf(Table(), Placing(s), row, m, k);
  }

  // The mirrored walk is a chain of blocking cells to direction k's neighbour.
  lemma ChainFor(k: int) returns (chain: seq<nat>)
    requires 0 <= k < NEIGHBOURS
    ensures Table().IsChain(chain, k)
  {
    var s, walk;
    s, walk, chain := RowIsPlacedWalk(k);
    PlacingKeepsLinks(s);
    PlacedWalkIsChain(Table(), Placing(s), walk, chain, k);
  }

  lemma RowIsValid(k: int)
    requires 0 <= k < NEIGHBOURS
    ensures Table().RowValid(k)
  {
    var t := Table();
    var chain := ChainFor(k);
    forall n | 0 <= n < |t.blocks[k]|
      ensures t.blocks[k][n] < |t.cells|
    {
      BlocksFit(k, n);
    }
    NeighbourPlaced(k);
    BaseRowIsSound(RowFor(k));
    forall n | 0 <= n < |t.weights[k]|
      ensures t.weights[k][n].0 in t.blocks[k] && 0.0 <= t.weights[k][n].1
    {
      EntryBlocks(k, n);
      assert t.blocks[k][n] == t.weights[k][n].0;
    }
  }

  lemma CellsAreNear(c: int)
    requires 0 <= c < 256
    ensures Cell(c).Near()
  {
    var f := FamilyOf(c);
    assert 0 <= f.a <= PAD && 0 <= f.b <= PAD;
  }

  function UnitCell(s: Step): nat {
    if s.dj == 0 then (if s.di == 1 then 0 else 1)
    else if s.di == 0 then (if s.dj == 1 then 2 else 3)
    else if s.di == 1 then (if s.dj == 1 then 4 else 6)
    else if s.dj == -1 then 5 else 7
  }

  lemma UnitCellIsInPlace(s: Step)
    requires s.Unit()
    ensures UnitCell(s) < 8 && Cell(UnitCell(s)) == s
  {
  }

  // The first eight directions are the single cells around the node, each blocked
  // by its own cell alone.
  lemma UnitRow(k: int)
    requires 0 <= k < 8
    ensures Cell(k).Unit() && Blocks(k) == [k]
  {
    var row, s, m := RowWalks(k);
    NeighbourIsK(k);
    EntryBlocks(k, 0);
    assert Count(row) == 1;
    PlacedFirst(s, StepAt(row, 0));
  }

  // The solver's table meets every condition its theorems ask of a stencil.
  lemma TableIsValid()
    ensures Table().Valid()
  {
    var t := Table();
    forall c | 0 <= c < 256
      ensures t.cells[c].Near()
    {
      CellsAreNear(c);
    }
    forall k | 0 <= k < NEIGHBOURS
      ensures t.RowValid(k)
    {
      RowIsValid(k);
    }
    forall k | 0 <= k < 8
      ensures t.cells[k].Unit() && t.blocks[k] == [k]
    {
      UnitRow(k);
    }
    forall s: Step | s.Unit()
      ensures s in t.cells[..8]
    {
      UnitCellIsInPlace(s);
      assert t.cells[..8][UnitCell(s)] == s;
    }
  }

  // ---------- Weight totals ----------

  function TotalWeight(w: seq<(nat, real)>): real {
    WeightSum(w, Once())
  }

  lemma {:induction false} TotalIsShared(row: Cells, image: Step -> nat, scale: int, total: int)
    requires 0 < scale && SumsTo(row, total)
    ensures TotalWeight(WeightsOf(row, image, scale)) == total as real / scale as real
  {
    if row.Done? {
    } else {
      TotalIsShared(row.rest, image, scale, total - row.share);
      var w := WeightsOf(row, image, scale);
      assert w[1..] == WeightsOf(row.rest, image, scale);
      SharesAdd(row.share as real, (total - row.share) as real, scale as real);
    }
  }

  lemma SharesAdd(a: real, b: real, d: real)
    requires d != 0.0
    ensures a / d + b / d == (a + b) / d
  {
  }

  // With the node's own weight of 1, the weights sum to twice the number of cell
  // steps along the segment's major axis.
  lemma WeightsSumToSteps(k: int)
    requires 0 <= k < NEIGHBOURS
    ensures 1.0 + TotalWeight(Table().weights[k]) == 2.0 * Major(Table().cells[k]) as real
  {
    var n := RowFor(k);
    NeighbourMajor(k);
    BaseRowIsSound(n);
    SharesSum(BaseRow(n), Placing(MirrorFor(k)), Scale(n), 2 * Major(BaseNeighbour(n)) - 1);
  }

  lemma NeighbourMajor(k: int)
    requires 0 <= k < NEIGHBOURS
    ensures 0 <= RowFor(k) < ROWS && 0 <= MirrorFor(k) < 8
    ensures Major(Cell(k)) == Major(BaseNeighbour(RowFor(k)))
  {
    NeighbourPlaced(k);
    BaseRowIsSound(RowFor(k));
    NeighbourIsK(k);
    PlacedFirst(MirrorFor(k), BaseNeighbour(RowFor(k)));
    MirrorsKeepMajor(MirrorFor(k), BaseNeighbour(RowFor(k)));
  }

  lemma SharesSum(row: Cells, image: Step -> nat, scale: int, m: int)
    requires 0 < scale && SumsTo(row, scale * m)
    ensures TotalWeight(WeightsOf(row, image, scale)) == m as real
  {
    TotalIsShared(row, image, scale, scale * m);
    ShareCancels(scale, m);
  }

  lemma MirrorsKeepMajor(s: int, p: Step)
    requires 0 <= s < 8
    ensures Major(Mirrored(s, p)) == Major(p)
  {
  }

  lemma ShareCancels(d: int, m: int)
    requires 0 < d
    ensures (d * m) as real / d as real == m as real
  {
    assert (d * m) as real == d as real * m as real;
  }

  // ---------- First moments ----------

  // The shares times the columns and the rows of their cells add up to (x, y).
  predicate MomentsAre(row: Cells, x: int, y: int) {
    if row.Done? then x == 0 && y == 0
    else MomentsAre(row.rest, x - row.share * row.di, y - row.share * row.dj)
  }

  // The moments of the rows.
  function MomentOf(n: int): Step {
    if n == 0 then Step(1, 0)
    else if n == 1 then Step(1, 1)
    else if n == 2 then Step(4, 2)
    else if n == 3 then Step(27, 9)
    else if n == 4 then Step(18, 12)
    else if n == 5 then Step(32, 8)
    else if n == 6 then Step(48, 36)
    else if n == 7 then Step(125, 25)
    else if n == 8 then Step(250, 100)
    else if n == 9 then Step(375, 225)
    else if n == 10 then Step(108, 18)
    else if n == 11 then Step(100, 80)
    else if n == 12 then Step(1029, 441)
    else if n == 13 then Step(256, 32)
    else if n == 14 then Step(294, 252)
    else Step(2197, 169)
  }

  lemma RowsBalance(n: int)
    requires 0 <= n < 6
    ensures MomentsAre(BaseRow(n), MomentOf(n).di, MomentOf(n).dj)
  {
    match n {
      case 0 => assert MomentsAre(BaseRow(0), 1, 0);
      case 1 => assert MomentsAre(BaseRow(1), 1, 1);
      case 2 => assert MomentsAre(BaseRow(2), 4, 2);
      case 3 => assert MomentsAre(BaseRow(3), 27, 9);
      case 4 => assert MomentsAre(BaseRow(4), 18, 12);
      case 5 => assert MomentsAre(BaseRow(5), 32, 8);
    }
  }

  lemma LongRowsBalance(n: int)
    requires 6 <= n < 12
    ensures MomentsAre(BaseRow(n), MomentOf(n).di, MomentOf(n).dj)
  {
    match n {
      case 6 => assert MomentsAre(BaseRow(6), 48, 36);
      case 7 => assert MomentsAre(BaseRow(7), 125, 25);
      case 8 => assert MomentsAre(BaseRow(8), 250, 100);
      case 9 => assert MomentsAre(BaseRow(9), 375, 225);
      case 10 => assert MomentsAre(BaseRow(10), 108, 18);
      case 11 => assert MomentsAre(BaseRow(11), 100, 80);
    }
  }

  lemma OneMoreEntry(di: int, dj: int, share: int, rest: Cells, x: int, y: int) returns (row: Cells)
    requires MomentsAre(rest, x, y)
    ensures row == Entry(di, dj, share, rest) && MomentsAre(row, x + share * di, y + share * dj)
  {
    row := Entry(di, dj, share, rest);
  }

  lemma Row12Balances()
    ensures MomentsAre(BaseRow(12), MomentOf(12).di, MomentOf(12).dj)
  {
    assert MomentsAre(Tail(12), 348, 186);
    assert MomentsAre(BaseRow(12), 1029, 441);
  }

  lemma Tail13Balances()
    ensures MomentsAre(Tail(13), 78, 1)
  {
  }

  lemma Row13Is(r: Cells)
    requires r == Entry(1, 0, 7, Entry(2, 1, 2, Entry(3, 1, 3, Entry(4, 1, 4, Entry(5, 1, 5, Entry(6, 1, 6, Entry(7, 1, 7, Entry(8, 1, 4, Tail(13)))))))))
    ensures r == BaseRow(13)
  {
  }

  lemma Row13Balances() returns (r: Cells)
    ensures r == BaseRow(13) && MomentsAre(r, 256, 32)
  {
    Tail13Balances();
    r := Tail(13);
    r := OneMoreEntry(8, 1, 4, r, 78, 1);
    r := OneMoreEntry(7, 1, 7, r, 110, 5);
    r := OneMoreEntry(6, 1, 6, r, 159, 12);
    r := OneMoreEntry(5, 1, 5, r, 195, 18);
    r := OneMoreEntry(4, 1, 4, r, 220, 23);
    r := OneMoreEntry(3, 1, 3, r, 236, 27);
    r := OneMoreEntry(2, 1, 2, r, 245, 30);
    r := OneMoreEntry(1, 0, 7, r, 249, 32);
    Row13Is(r);
  }

  lemma Row14Balances()
    ensures MomentsAre(BaseRow(14), MomentOf(14).di, MomentOf(14).dj)
  {
    assert MomentsAre(Tail(14), 69, 65);
    assert MomentsAre(BaseRow(14), 294, 252);
  }

  lemma Tail15Balances()
    ensures MomentsAre(Tail(15), 706, 2)
  {
  }

  lemma Row15Balances() returns (r: Cells)
    ensures r == BaseRow(15) && MomentsAre(r, 2197, 169)
  {
    Tail15Balances();
    r := Tail(15);
    r := OneMoreEntry(13, 1, 13, r, 706, 2);
    r := OneMoreEntry(12, 1, 24, r, 875, 15);
    r := OneMoreEntry(11, 1, 22, r, 1163, 39);
    r := OneMoreEntry(10, 1, 20, r, 1405, 61);
    r := OneMoreEntry(9, 1, 18, r, 1605, 81);
    r := OneMoreEntry(8, 1, 16, r, 1767, 99);
    r := OneMoreEntry(7, 1, 14, r, 1895, 115);
    r := OneMoreEntry(6, 1, 12, r, 1993, 129);
    r := OneMoreEntry(5, 1, 10, r, 2065, 141);
    r := OneMoreEntry(4, 1, 8, r, 2115, 151);
    r := OneMoreEntry(3, 1, 6, r, 2147, 159);
    r := OneMoreEntry(2, 1, 4, r, 2165, 165);
    r := OneMoreEntry(1, 0, 24, r, 2173, 169);
    assert r == BaseRow(15);
  }

  // They are a row's scale times the steps along its major axis times its neighbour.
  lemma MomentsAreSteps(n: int)
    requires 0 <= n < ROWS
    ensures MomentOf(n).di == Scale(n) * (Major(BaseNeighbour(n)) * BaseNeighbour(n).di)
    ensures MomentOf(n).dj == Scale(n) * (Major(BaseNeighbour(n)) * BaseNeighbour(n).dj)
  {
  }

  lemma RowIsBalanced(n: int)
    requires 0 <= n < ROWS
    ensures MomentsAre(BaseRow(n), MomentOf(n).di, MomentOf(n).dj)
  {
    if n < 6 {
      RowsBalance(n);
    } else if n < 12 {
      LongRowsBalance(n);
    } else {
      match n {
        case 12 => Row12Balances();
        case 13 => var r := Row13Balances();
        case 14 => Row14Balances();
        case 15 => var r := Row15Balances();
      }
    }
  }

  // A linear reading of a step: its columns or rows, or those of a mirror image.
  datatype Form = Form(u: real, v: real) {
    function Of(p: Step): real {
      u * p.di as real + v * p.dj as real
    }
  }

  // What mirror s makes of a reading.
  function Reflected(f: Form, s: int): Form {
    var u, v := if s % 4 == 1 || s % 4 == 3 then -f.u else f.u, if s % 4 == 1 || s % 4 == 2 then -f.v else f.v;
    if s >= 4 then Form(v, u) else Form(u, v)
  }

  lemma ReflectedReads(f: Form, s: int, p: Step)
    requires 0 <= s < 8
    ensures f.Of(Mirrored(s, p)) == Reflected(f, s).Of(p)
  {
    assert (-p.di) as real == -(p.di as real) && (-p.dj) as real == -(p.dj as real);
  }

  // `of` reads off the place of each listed step what f makes of the step.
  ghost predicate ReadsOff(place: Step -> nat, of: nat -> real, f: Form) {
    forall p :: Listed(p) ==> of(place(p)) == f.Of(p)
  }

  // The weighted sum of a row's readings.
  function Spread(row: Cells, scale: int, f: Form): real
    requires 0 < scale
  {
    if row.Done? then 0.0
    else row.share as real / scale as real * f.Of(Step(row.di, row.dj)) + Spread(row.rest, scale, f)
  }

  lemma {:induction false} SumIsSpread(row: Cells, place: Step -> nat, of: nat -> real, scale: int, f: Form)
    requires 0 < scale && Sound(row) && ReadsOff(place, of, f)
    ensures WeightSum(WeightsOf(row, place, scale), of) == Spread(row, scale, f)
  {
    if row.Done? {
    } else {
      SumIsSpread(row.rest, place, of, scale, f);
      var w := WeightsOf(row, place, scale);
      assert w[1..] == WeightsOf(row.rest, place, scale);
      assert of(place(Step(row.di, row.dj))) == f.Of(Step(row.di, row.dj));
    }
  }

  lemma {:induction false} SpreadIsMoment(row: Cells, scale: int, f: Form, x: int, y: int)
    requires 0 < scale && MomentsAre(row, x, y)
    ensures Spread(row, scale, f) * scale as real == f.Of(Step(x, y))
  {
    if row.Done? {
    } else {
      var p, n := Step(row.di, row.dj), row.share;
      SpreadIsMoment(row.rest, scale, f, x - n * p.di, y - n * p.dj);
      OneMoreReading(Spread(row.rest, scale, f), scale as real, f, p, n, x, y);
    }
  }

  lemma OneMoreReading(rest: real, d: real, f: Form, p: Step, n: int, x: int, y: int)
    requires d != 0.0 && rest * d == f.Of(Step(x - n * p.di, y - n * p.dj))
    ensures (n as real / d * f.Of(p) + rest) * d == f.Of(Step(x, y))
  {
    var a := n as real / d;
    assert a * d == n as real;
    FormAdds(f, p, n, x, y);
    ScaledAdds(a, f.Of(p), rest, d, n as real, f.Of(Step(x - n * p.di, y - n * p.dj)));
  }

  lemma ScaledAdds(a: real, value: real, rest: real, d: real, n: real, b: real)
    requires a * d == n && rest * d == b
    ensures (a * value + rest) * d == n * value + b
  {
    assert (a * value + rest) * d == (a * d) * value + rest * d;
  }

  lemma FormAdds(f: Form, p: Step, n: int, x: int, y: int)
    ensures f.Of(Step(x, y)) == n as real * f.Of(p) + f.Of(Step(x - n * p.di, y - n * p.dj))
  {
    var a, b, m := p.di as real, p.dj as real, n as real;
    assert (x - n * p.di) as real == x as real - m * a && (y - n * p.dj) as real == y as real - m * b;
    LinearSplit(f.u, x as real, m, a);
    LinearSplit(f.v, y as real, m, b);
    assert m * (f.u * a + f.v * b) == m * (f.u * a) + m * (f.v * b);
  }

  lemma LinearSplit(u: real, x: real, m: real, a: real)
    ensures u * x == m * (u * a) + u * (x - m * a)
  {
  }

  // A row of weights reads its neighbour as often as there are steps along its major axis.
  ghost predicate Reads(w: seq<(nat, real)>, of: nat -> real, m: int, value: real) {
    WeightSum(w, of) == m as real * value
  }

  lemma RowBalances(n: int, place: Step -> nat, of: nat -> real, f: Form)
    requires 0 <= n < ROWS && ReadsOff(place, of, f)
    ensures Reads(WeightsOf(BaseRow(n), place, Scale(n)), of, Major(BaseNeighbour(n)), f.Of(BaseNeighbour(n)))
  {
    RowSpreads(n, f);
    BaseRowIsSound(n);
    SumIsSpread(BaseRow(n), place, of, Scale(n), f);
  }

  // Over d, the row has m times the moments of p.
  ghost predicate HasMoment(row: Cells, d: int, p: Step, m: int, x: Step) {
    MomentsAre(row, x.di, x.dj) && x.di == d * (m * p.di) && x.dj == d * (m * p.dj)
  }

  lemma RowMoment(n: int) returns (x: Step)
    requires 0 <= n < ROWS
    ensures HasMoment(BaseRow(n), Scale(n), BaseNeighbour(n), Major(BaseNeighbour(n)), x)
  {
    RowIsBalanced(n);
    MomentsAreSteps(n);
    x := MomentOf(n);
  }

  lemma RowSpreads(n: int, f: Form)
    requires 0 <= n < ROWS
    ensures Spread(BaseRow(n), Scale(n), f) == Major(BaseNeighbour(n)) as real * f.Of(BaseNeighbour(n))
  {
    var x := RowMoment(n);
    SpreadScales(BaseRow(n), Scale(n), f, BaseNeighbour(n), Major(BaseNeighbour(n)), x);
  }

  lemma SpreadScales(row: Cells, d: int, f: Form, p: Step, m: int, x: Step)
    requires 0 < d && HasMoment(row, d, p, m, x)
    ensures Spread(row, d, f) == m as real * f.Of(p)
  {
    SpreadIsMoment(row, d, f, x.di, x.dj);
    FormScales(f, p, d, m, x, Spread(row, d, f));
  }

  lemma FormScales(f: Form, p: Step, d: int, m: int, x: Step, w: real)
    requires 0 < d && x.di == d * (m * p.di) && x.dj == d * (m * p.dj) && w * d as real == f.Of(x)
    ensures w == m as real * f.Of(p)
  {
    var a, b, k, e := p.di as real, p.dj as real, m as real, d as real;
    assert x.di as real == e * (k * a) && x.dj as real == e * (k * b);
    assert f.u * (e * (k * a)) == (k * (f.u * a)) * e && f.v * (e * (k * b)) == (k * (f.v * b)) * e;
    assert k * (f.u * a + f.v * b) == k * (f.u * a) + k * (f.v * b);
    SameProduct(w, k * f.Of(p), e);
  }

  lemma SameProduct(a: real, b: real, d: real)
    requires d != 0.0 && a * d == b * d
    ensures a == b
  {
  }

  // The column or the row of a patch cell, weighed by f.
  function Reading(f: Form): nat -> real {
    (c: nat) => f.Of(Cell(c))
  }

  lemma PlacingReads(s: int, f: Form)
    requires 0 <= s < 8
    ensures ReadsOff(Placing(s), Reading(f), Reflected(f, s))
  {
    forall p | Listed(p)
      ensures Reading(f)(Placing(s)(p)) == Reflected(f, s).Of(p)
    {
      PlacedFirst(s, p);
      ReflectedReads(f, s, p);
    }
  }

  lemma NeighbourIsMirrored(k: int)
    requires 0 <= k < NEIGHBOURS
    ensures 0 <= MirrorFor(k) < 8 && Cell(k) == Mirrored(MirrorFor(k), BaseNeighbour(RowFor(k)))
  {
    NeighbourPlaced(k);
    BaseRowIsSound(RowFor(k));
    NeighbourIsK(k);
    PlacedFirst(MirrorFor(k), BaseNeighbour(RowFor(k)));
  }

  lemma WeightsRead(k: int, f: Form, g: Form)
    requires 0 <= k < NEIGHBOURS && 0 <= RowFor(k) < ROWS && 0 <= MirrorFor(k) < 8 && g == Reflected(f, MirrorFor(k))
    ensures Reads(Weights(k), Reading(f), Major(BaseNeighbour(RowFor(k))), g.Of(BaseNeighbour(RowFor(k))))
  {
    PlacingReads(MirrorFor(k), f);
    RowBalances(RowFor(k), Placing(MirrorFor(k)), Reading(f), g);
  }

  // Direction k's weights balance about the middle of its segment: over a slowness that
  // is linear they read what its two ends would.
  lemma WeightsBalance(k: int, f: Form)
    requires 0 <= k < NEIGHBOURS
    ensures Reads(Table().weights[k], Reading(f), Major(Cell(k)), f.Of(Cell(k)))
  {
    NeighbourMajor(k);
    NeighbourIsMirrored(k);
    ReflectedReads(f, MirrorFor(k), BaseNeighbour(RowFor(k)));
    WeightsRead(k, f, Reflected(f, MirrorFor(k)));
    assert Table().weights[k] == Weights(k);
  }
}
