/** What a key feeds to the hasher tells it apart from every other key. */
module KeyHashing {
  import opened Scalars

  // How many bytes a character takes, by its first.
  function CharLength(first: int): nat {
    if first < 0x80 then 1 else if first < 0xE0 then 2 else if first < 0xF0 then 3 else 4
  }

  // The number of a character, by its bytes.
  function CharNumber(bytes: seq<int>): int
    requires 1 <= |bytes| <= 4
  {
    match |bytes|
    case 1 => bytes[0]
    case 2 => (bytes[0] - 0xC0) * 0x40 + bytes[1] - 0x80
    case 3 => ((bytes[0] - 0xE0) * 0x40 + bytes[1] - 0x80) * 0x40 + bytes[2] - 0x80
    case _ => (((bytes[0] - 0xF0) * 0x40 + bytes[1] - 0x80) * 0x40 + bytes[2] - 0x80) * 0x40 + bytes[3] - 0x80
  }

  lemma CharDecodes(c: char)
    ensures var bytes := CharBytes(c);
            1 <= |bytes| == CharLength(bytes[0]) <= 4 && CharNumber(bytes) == c as int && bytes[0] < 0xFF
  {
    var n := c as int;
    assert n == n / 0x40 * 0x40 + n % 0x40;
    assert n / 0x40 == n / 0x1000 * 0x40 + n / 0x40 % 0x40;
    assert n / 0x1000 == n / 0x4_0000 * 0x40 + n / 0x1000 % 0x40;
  }

  lemma CharsApart(c: char, d: char, x: seq<int>, y: seq<int>)
    requires CharBytes(c) + x == CharBytes(d) + y
    ensures c == d && x == y
  {
    hide CharBytes, CharNumber, CharLength;
    CharDecodes(c);
    CharDecodes(d);
    SameHead(CharBytes(c), CharBytes(d), x, y);
  }

  lemma SameHead(u: seq<int>, v: seq<int>, x: seq<int>, y: seq<int>)
    requires u + x == v + y && u != [] && v != []
    ensures u[0] == v[0]
    ensures |u| == |v| ==> u == v && x == y
  {
    assert u[0] == (u + x)[0] && v[0] == (v + y)[0];
    if |u| == |v| {
      assert u == (u + x)[..|u|] && v == (v + y)[..|v|];
      assert x == (u + x)[|u|..] && y == (v + y)[|v|..];
    }
  }

  lemma FirstCharFirst(s: string, x: seq<int>)
    requires s != []
    ensures TextBytes(s) + [0xFF] + x == CharBytes(s[0]) + (TextBytes(s[1..]) + [0xFF] + x)
  {
    hide CharBytes;
  }

  lemma EndsText(s: string, x: seq<int>, y: seq<int>)
    requires s != []
    ensures [0xFF] + x != TextBytes(s) + [0xFF] + y
  {
    hide CharBytes;
    CharDecodes(s[0]);
    assert (TextBytes(s) + [0xFF] + y)[0] == CharBytes(s[0])[0];
    assert ([0xFF] + x)[0] == 0xFF;
  }

  lemma {:induction false} TextsApart(s: string, t: string, x: seq<int>, y: seq<int>)
    requires TextBytes(s) + [0xFF] + x == TextBytes(t) + [0xFF] + y
    ensures s == t && x == y
  {
    hide CharBytes;
    var left, right := TextBytes(s) + [0xFF] + x, TextBytes(t) + [0xFF] + y;
    if s == [] && t == [] {
      assert x == left[1..] && y == right[1..];
    } else if s == [] {
      EndsText(t, x, y);
    } else if t == [] {
      EndsText(s, y, x);
    } else {
      var p, q := TextBytes(s[1..]) + [0xFF] + x, TextBytes(t[1..]) + [0xFF] + y;
      FirstCharFirst(s, x);
      FirstCharFirst(t, y);
      CharsApart(s[0], t[0], p, q);
      TextsApart(s[1..], t[1..], x, y);
      assert s == [s[0]] + s[1..] && t == [t[0]] + t[1..];
    }
  }

  lemma BytesApart(a: seq<U8>, b: seq<U8>, x: seq<int>, y: seq<int>)
    requires HashWords(Binary(a)) + x == HashWords(Binary(b)) + y
    ensures a == b && x == y
  {
    var u, v := HashWords(Binary(a)), HashWords(Binary(b));
    assert (u + x)[1] == |a| && (v + y)[1] == |b|;
    SameHead(u, v, x, y);
    forall i | 0 <= i < |a| ensures a[i] == b[i] {
      assert u[i + 2] == a[i] && v[i + 2] == b[i];
    }
  }

  lemma NumbersApart(a: ScalarValue, b: ScalarValue, x: seq<int>, y: seq<int>)
    requires HashWords(a) + x == HashWords(b) + y && !a.Utf8? && !a.Binary? && Discriminant(a) == Discriminant(b)
    ensures a == b && x == y
  {
    var u, v := HashWords(a), HashWords(b);
    SameHead(u, v, x, y);
    assert |u| > 1 ==> u[1] == v[1];
  }

  // No cell's words begin another cell's.
  lemma CellsApart(a: ScalarValue, b: ScalarValue, x: seq<int>, y: seq<int>)
    requires HashWords(a) + x == HashWords(b) + y
    ensures a == b && x == y
  {
    hide TextBytes, CharBytes;
    assert Discriminant(a) == (HashWords(a) + x)[0] == (HashWords(b) + y)[0] == Discriminant(b);
    if a.Utf8? {
      assert TextBytes(a.s) + [0xFF] + x == (HashWords(a) + x)[1..];
      assert TextBytes(b.s) + [0xFF] + y == (HashWords(b) + y)[1..];
      TextsApart(a.s, b.s, x, y);
    } else if a.Binary? {
      BytesApart(a.bytes, b.bytes, x, y);
    } else {
      NumbersApart(a, b, x, y);
    }
  }

  /** Two keys feed the hasher the same words exactly when they are equal as keys. */
  lemma {:induction false} WordsTellKeysApart(a: Row, b: Row)
    ensures KeyWords(a) == KeyWords(b) <==> RowKeyEq(a, b)
  {
    RowKeyEqIsIdentity(a, b);
    if KeyWords(a) == KeyWords(b) {
      WordsDetermineKey(a, b);
    }
  }

  lemma {:induction false} WordsDetermineKey(a: Row, b: Row)
    requires KeyWords(a) == KeyWords(b)
    ensures a == b
  {
    if a != [] && b != [] {
      CellsApart(a[0], b[0], KeyWords(a[1..]), KeyWords(b[1..]));
      WordsDetermineKey(a[1..], b[1..]);
      assert a == [a[0]] + a[1..] && b == [b[0]] + b[1..];
    }
  }
}
