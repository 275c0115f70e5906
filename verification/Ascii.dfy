/** The `Ascii` transport: fields joined with ':' and encoded as UTF-8, and back. */
module Ascii {
  import opened Sequences
  import opened Datagrams
  import opened Utf8

  const COLON: Byte := 0x3A

  function Join<T>(xs: seq<seq<T>>, sep: T): seq<T> {
    if xs == [] then []
    else if |xs| == 1 then xs[0]
    else xs[0] + [sep] + Join(xs[1..], sep)
  }

  function Split<T(==)>(s: seq<T>, sep: T): (r: seq<seq<T>>)
    ensures r != []
  {
    if s == [] then [[]]
    else
      var rest := Split(s[1..], sep);
      if s[0] == sep then [[]] + rest else [[s[0]] + rest[0]] + rest[1..]
  }

  function Dumps(data: seq<Text>): Option<Message> {
    Encode(Join<Rune>(data, COLON))
  }

  function Loads(msg: Message): Option<seq<Text>> {
    match Decode(msg)
    case None => None
    case Some(t) => Some(Split<Rune>(t, COLON))
  }

  lemma {:induction false} JoinSplit<T>(s: seq<T>, sep: T)
    ensures Join(Split(s, sep), sep) == s
  {
    if s != [] {
      JoinSplit(s[1..], sep);
      var rest := Split(s[1..], sep);
      assert s == [s[0]] + s[1..];
      if s[0] == sep {
        assert ([[]] + rest)[1..] == rest;
        assert Join(Split(s, sep), sep) == [] + [sep] + Join(rest, sep);
      } else {
        var all := [[s[0]] + rest[0]] + rest[1..];
        assert all[1..] == rest[1..];
        if |rest| > 1 {
          assert Join(all, sep) == [s[0]] + (rest[0] + [sep] + Join(rest[1..], sep));
        }
      }
    }
  }

  lemma {:induction false} SplitHasNoSeparator<T>(s: seq<T>, sep: T, i: nat)
    requires i < |Split(s, sep)|
    ensures sep !in Split(s, sep)[i]
  {
    if s != [] {
      var rest := Split(s[1..], sep);
      if s[0] == sep {
        if i > 0 {
          SplitHasNoSeparator(s[1..], sep, i - 1);
        }
      } else {
        SplitHasNoSeparator(s[1..], sep, i);
      }
    }
  }

  /** A stretch without separators belongs to the first part. */
  lemma {:induction false} SplitPrefix<T>(s: seq<T>, n: nat, sep: T)
    requires n <= |s| && sep !in s[..n]
    ensures var rest := Split(s[n..], sep); Split(s, sep) == [s[..n] + rest[0]] + rest[1..]
  {
    if n == 0 {
      assert s[0..] == s && s[..0] == [];
      var rest := Split(s, sep);
      assert s[..0] + rest[0] == rest[0];
      assert rest == [rest[0]] + rest[1..];
    } else {
      assert s[0] == s[..n][0];
      assert s[1..][..n - 1] == s[..n][1..];
      assert s[1..][n - 1..] == s[n..];
      SplitPrefix(s[1..], n - 1, sep);
      var rest := Split(s[n..], sep);
      assert s[..n] == [s[0]] + s[1..][..n - 1];
      assert Split(s, sep)[0] == s[..n] + rest[0];
    }
  }

  lemma {:induction false} SplitJoin<T>(xs: seq<seq<T>>, sep: T)
    requires xs != [] && forall i :: 0 <= i < |xs| ==> sep !in xs[i]
    ensures Split(Join(xs, sep), sep) == xs
  {
    var s, n := Join(xs, sep), |xs[0]|;
    if |xs| == 1 {
      assert s[..n] == xs[0] && s[n..] == [];
      SplitPrefix(s, n, sep);
      assert xs[0] + [] == xs[0];
      assert xs == [xs[0]];
    } else {
      var tail := Join(xs[1..], sep);
      assert s[..n] == xs[0] && s[n..] == [sep] + tail;
      SplitPrefix(s, n, sep);
      SplitJoin(xs[1..], sep);
      assert ([sep] + tail)[1..] == tail;
      assert Split([sep] + tail, sep) == [[]] + xs[1..];
      assert ([[]] + xs[1..])[1..] == xs[1..];
      assert xs[0] + [] == xs[0];
      assert xs == [xs[0]] + xs[1..];
    }
  }

  /**
   Loading what was dumped gives the fields back exactly when there is at least one field and none contains the
   separator.
   */
  lemma RoundTrip(xs: seq<Text>)
    requires Dumps(xs).Some?
    ensures Loads(Dumps(xs).value) == Some(xs) <==> xs != [] && forall i :: 0 <= i < |xs| ==> COLON !in xs[i]
  {
    var t: Text := Join<Rune>(xs, COLON);
    DecodeEncode(t);
    if xs != [] && forall i :: 0 <= i < |xs| ==> COLON !in xs[i] {
      SplitJoin<Rune>(xs, COLON);
    }
    forall i | 0 <= i < |Split<Rune>(t, COLON)| ensures COLON !in Split<Rune>(t, COLON)[i] {
      SplitHasNoSeparator<Rune>(t, COLON, i);
    }
  }

  lemma {:induction false} JoinEncodable(xs: seq<Text>)
    ensures Encodable(Join<Rune>(xs, COLON)) <==> forall i :: 0 <= i < |xs| ==> Encodable(xs[i])
  {
    if |xs| > 1 {
      JoinEncodable(xs[1..]);
      var s, head, tail := Join<Rune>(xs, COLON), xs[0] + [COLON], Join<Rune>(xs[1..], COLON);
      assert s == head + tail;
      assert Encodable(s) <==> Encodable(head) && Encodable(tail) by {
        assert forall i :: 0 <= i < |head| ==> head[i] == s[i];
        assert forall i :: 0 <= i < |tail| ==> tail[i] == s[|head| + i];
      }
      assert Encodable(head) <==> Encodable(xs[0]) by {
        assert forall i :: 0 <= i < |xs[0]| ==> xs[0][i] == head[i];
      }
      assert forall i :: 1 <= i < |xs| ==> xs[i] == xs[1..][i - 1];
    }
  }

  /** `dumps` fails exactly when some field has a surrogate. */
  lemma DumpsSucceeds(xs: seq<Text>)
    ensures Dumps(xs).Some? <==> forall i :: 0 <= i < |xs| ==> Encodable(xs[i])
  {
    DecodeEncode(Join<Rune>(xs, COLON));
    JoinEncodable(xs);
  }

  /** Dumping what was loaded gives back the bytes, for every valid UTF-8 message. */
  lemma DumpsLoads(b: Message)
    requires Loads(b).Some?
    ensures Dumps(Loads(b).value) == Some(b)
  {
    EncodeDecode(b);
    JoinSplit<Rune>(Decode(b).value, COLON);
  }

  /** No field is the empty message, and comes back as one empty field. */
  lemma DumpsNothing()
    ensures Dumps([]) == Some([]) && Loads([]) == Some([[]])
  {
  }

  lemma ConcatAssociates<T>(a: seq<T>, b: seq<T>, c: seq<T>)
    ensures a + (b + c) == a + b + c
  {
  }

  lemma {:induction false} EncodeAppend(s: Text, t: Text)
    requires Encode(s).Some? && Encode(t).Some?
    ensures Encode(s + t) == Some(Encode(s).value + Encode(t).value)
  {
    if s == [] {
      assert s + t == t && [] + Encode(t).value == Encode(t).value;
    } else {
      var head, front, back := EncodeRune(s[0]), Encode(s[1..]).value, Encode(t).value;
      EncodeAppend(s[1..], t);
      ConcatAssociates(head, front, back);
      assert [s[0]] + s[1..] == s && [s[0]] + (s[1..] + t) == s + t;
      EncodeOne(s[0], s[1..]);
      EncodeOne(s[0], s[1..] + t);
    }
  }

  /** The bytes of the fields, in order, with one byte 0x3A, the ':' of ASCII, between any two. */
  lemma {:induction false} DumpsFields(x: Text, xs: seq<Text>)
    requires Dumps([x] + xs).Some?
    ensures Encode(x).Some?
    ensures xs == [] ==> Dumps([x]) == Encode(x)
    ensures xs != [] ==> Dumps(xs).Some? && Dumps([x] + xs).value == Encode(x).value + [0x3A] + Dumps(xs).value
  {
    var all := [x] + xs;
    DumpsSucceeds(all);
    assert all[0] == x && all[1..] == xs;
    DecodeEncode(x);
    if xs != [] {
      assert forall i :: 0 <= i < |xs| ==> xs[i] == all[i + 1];
      DumpsSucceeds(xs);
      var rest := Join<Rune>(xs, COLON);
      EncodeOne(COLON, []);
      assert [COLON] + [] == [COLON];
      EncodeAppend(x, [COLON]);
      EncodeAppend(x + [COLON], rest);
    }
  }

  function DecodeAll(parts: seq<Message>): Option<seq<Text>> {
    if parts == [] then Some([])
    else
      match Decode(parts[0])
      case None => None
      case Some(t) =>
        match DecodeAll(parts[1..])
        case None => None
        case Some(ts) => Some([t] + ts)
  }

  /** Splitting the bytes and decoding the parts is the same as loading, on valid and invalid messages alike. */
  lemma {:induction false} SplitBytesFirst(b: Message)
    ensures DecodeAll(Split<Byte>(b, COLON)) == Loads(b)
    decreases |b|
  {
    var parts := Split<Byte>(b, COLON);
    if b == [] {
      assert parts[0] == [] && parts[1..] == [];
      assert Decode(parts[0]) == Some([]);
      assert DecodeAll(parts[1..]) == Some([]);
      var loaded: seq<Text> := [[]];
      assert loaded + [] == loaded;
    } else if b[0] == COLON {
      SplitBytesFirst(b[1..]);
      assert parts[1..] == Split<Byte>(b[1..], COLON);
      if Loads(b).Some? {
        var t := Decode(b[1..]).value;
        assert ([COLON] + t)[1..] == t;
      }
    } else {
      FirstPart(b);
      var first := parts[0];
      HeadIsLocal(b, |first|);
      if DecodeHead(b).Some? {
        var h := DecodeHead(b).value;
        HeadTail(b);
        SplitPrefix<Byte>(b, h.size, COLON);
        SplitBytesFirst(b[h.size..]);
        var rest := Split<Byte>(b[h.size..], COLON);
        assert first[h.size..] == rest[0];
        assert parts[1..] == rest[1..];
        if Loads(b).Some? {
          var t := Decode(b[h.size..]).value;
          assert ([h.rune] + t)[1..] == t;
        }
      }
    }
  }

  lemma {:induction false} FirstPart(b: Message)
    ensures var first := Split<Byte>(b, COLON)[0]; |first| <= |b| && first == b[..|first|]
  {
    if b != [] {
      FirstPart(b[1..]);
    }
  }
}
