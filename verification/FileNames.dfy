/** The names behind the paths: why a media file, a wall part and a rotation part never
    share a file, so that treating paths as values loses nothing. */
module FileNames {
  import opened Basics
  import opened LocalCache

  function Digit(d: nat): char
    requires d < 10
  {
    "0123456789"[d]
  }

  function Digits(n: nat): (s: string)
    ensures s != "" && s[0] != '-'
  {
    if n < 10 then [Digit(n)] else Digits(n / 10) + [Digit(n % 10)]
  }

  /** `str(n)`. */
  function Decimal(n: int): string {
    if n < 0 then "-" + Digits(-n) else Digits(n)
  }

  function PartName(k: VideoKind): string {
    match k
    case Webm => "webm.bin"
    case Mp4 => "mp4.bin"
    case Poster => "poster.bin"
  }

  function FileName(p: Path): string {
    match p
    case MediaFile(id) => "media/" + Decimal(id) + ".bin"
    case VideoFile(Wall(k)) => "video/" + PartName(k)
    case VideoFile(Rotation(id, k)) => "video/rot-" + Decimal(id) + "-" + PartName(k)
  }

  /** The number a string of digits stands for, most significant first. */
  function Number(s: string): int {
    if s == "" then 0 else 10 * Number(s[..|s| - 1]) + (s[|s| - 1] as int - '0' as int)
  }

  /** Reading a printed number gives it back. */
  lemma {:induction false} DigitsReadBack(n: nat)
    ensures Number(Digits(n)) == n
    ensures forall c | c in Digits(n) :: '0' <= c <= '9'
  {
    if n < 10 {
      assert [Digit(n)][..0] == "";
    } else {
      DigitsReadBack(n / 10);
      assert (Digits(n / 10) + [Digit(n % 10)])[..|Digits(n / 10)|] == Digits(n / 10);
    }
  }

  lemma {:induction false} DigitsInjective(a: nat, b: nat)
    requires Digits(a) == Digits(b)
    ensures a == b
  {
    DigitsEnd(a);
    DigitsEnd(b);
    if a >= 10 && b >= 10 {
      DigitsInjective(a / 10, b / 10);
    }
  }

  lemma DigitsEnd(n: nat)
    ensures
      var s := Digits(n);
      && s[|s| - 1] == Digit(n % 10) && (|s| == 1 <==> n < 10)
      && (n >= 10 ==> s[..|s| - 1] == Digits(n / 10))
  {
    if n >= 10 {
      var s := Digits(n / 10);
      assert (s + [Digit(n % 10)])[..|s|] == s;
    }
  }

  lemma Sign(n: int)
    ensures Decimal(n) != ""
    ensures n < 0 ==> Decimal(n)[0] == '-' && Decimal(n)[1..] == Digits(-n)
    ensures n >= 0 ==> Decimal(n)[0] != '-' && Decimal(n) == Digits(n)
  {
  }

  lemma DecimalInjective(a: int, b: int)
    requires Decimal(a) == Decimal(b)
    ensures a == b
  {
    Sign(a);
    Sign(b);
    if a < 0 {
      DigitsInjective(-a, -b);
    } else {
      DigitsInjective(a, b);
    }
  }

  /** The part names differ five characters from the end. */
  lemma PartNameFromEnd(pre: string, k: VideoKind)
    ensures
      var s := pre + PartName(k);
      |s| >= 7 && s[|s| - 5] == match k case Webm => 'm' case Mp4 => '4' case Poster => 'r'
  {
  }

  lemma RotationNameParts(id: Id, k: VideoKind)
    ensures FileName(VideoFile(Rotation(id, k))) == "video/rot-" + Decimal(id) + "-" + PartName(k)
    ensures FileName(VideoFile(Rotation(id, k)))[6] == 'r'
    ensures FileName(VideoFile(Rotation(id, k)))[10..][..|Decimal(id)|] == Decimal(id)
    ensures |FileName(VideoFile(Rotation(id, k)))| == 11 + |Decimal(id)| + |PartName(k)|
  {
    var (pre, mid, end) := ("video/rot-", Decimal(id), "-" + PartName(k));
    assert "video/rot-" + Decimal(id) + "-" + PartName(k) == pre + mid + end;
    assert |pre| == 10 && pre[6] == 'r';
    MiddleOf(pre, mid, end);
  }

  lemma MiddleOf(pre: string, mid: string, end: string)
    ensures (pre + mid + end)[|pre|..][..|mid|] == mid
    ensures forall i | 0 <= i < |pre| :: (pre + mid + end)[i] == pre[i]
  {
  }

  lemma RotationNamesDistinct(a: Id, j: VideoKind, b: Id, k: VideoKind)
    requires FileName(VideoFile(Rotation(a, j))) == FileName(VideoFile(Rotation(b, k)))
    ensures a == b && j == k
  {
    PartNameFromEnd("video/rot-" + Decimal(a) + "-", j);
    PartNameFromEnd("video/rot-" + Decimal(b) + "-", k);
    RotationNameParts(a, j);
    RotationNameParts(b, k);
    DecimalInjective(a, b);
  }

  lemma WallNamesDistinct(j: VideoKind, s: Slot)
    requires FileName(VideoFile(Wall(j))) == FileName(VideoFile(s))
    ensures s == Wall(j)
  {
    PartNameFromEnd("video/", j);
    if s.Wall? {
      PartNameFromEnd("video/", s.kind);
    } else {
      RotationNameParts(s.id, s.kind);
    }
  }

  lemma MediaNamesDistinct(a: Id, b: Id)
    requires FileName(MediaFile(a)) == FileName(MediaFile(b))
    ensures a == b
  {
    var (s, t) := (FileName(MediaFile(a)), FileName(MediaFile(b)));
    assert |s| == 10 + |Decimal(a)| && |t| == 10 + |Decimal(b)|;
    assert s[6..][..|Decimal(a)|] == Decimal(a) && t[6..][..|Decimal(b)|] == Decimal(b);
    DecimalInjective(a, b);
  }

  lemma Directory(p: Path)
    ensures FileName(p)[0] == if p.MediaFile? then 'm' else 'v'
  {
  }

  /** Different paths have different names. */
  lemma NamesAreDistinct(p: Path, q: Path)
    requires FileName(p) == FileName(q)
    ensures p == q
  {
    Directory(p);
    Directory(q);
    if p.MediaFile? {
      MediaNamesDistinct(p.id, q.id);
    } else if p.slot.Wall? {
      WallNamesDistinct(p.slot.kind, q.slot);
    } else if q.slot.Wall? {
      WallNamesDistinct(q.slot.kind, p.slot);
    } else {
      RotationNamesDistinct(p.slot.id, p.slot.kind, q.slot.id, q.slot.kind);
    }
  }
}
