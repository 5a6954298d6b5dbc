// The dependency grid: an N x N matrix of dependency characters stored as
// one run-length-encoded string per row key.
module DependencyGrid {
  import opened Outcomes
  import opened Text
  import KeyManager
  import NaturalOrder

  const DiagonalChar: char := 'o'
  const PlaceholderChar: char := 'p'
  const EmptyChar: char := '.'

  // ---------------------------------------------------------------------
  // Run-length encoding (compress)

  /** Length of the maximal run of `s[0]` at the start of `s`. */
  function RunLength(s: string): (n: nat)
    requires s != []
    ensures 1 <= n <= |s|
    ensures forall i :: 0 <= i < n ==> s[i] == s[0]
    ensures n < |s| ==> s[n] != s[0]
    decreases |s|
  {
    if |s| == 1 || s[1] != s[0] then 1 else 1 + RunLength(s[1..])
  }

  /**
   * The substitution of COMPRESSION_PATTERN `([^o])\1{2,}`: every maximal
   * run of length three or more of a character other than 'o' becomes the
   * character followed by the decimal run length; all else is copied.
   */
  function Encode(s: string): string
    decreases |s|
  {
    if s == [] then []
    else
      var n := RunLength(s);
      (if s[0] != DiagonalChar && n >= 3 then [s[0]] + NatToString(n) else s[..n])
      + Encode(s[n..])
  }

  /** compress: strings of at most three characters are returned as they are. */
  function Compress(s: string): string {
    if |s| <= 3 then s else Encode(s)
  }

  /** A run of three equal characters other than 'o'. */
  predicate HasLongRun(s: string) {
    exists i :: 0 <= i && i + 2 < |s| && s[i] != DiagonalChar && s[i] == s[i + 1] && s[i + 1] == s[i + 2]
  }

  // ---------------------------------------------------------------------
  // Decoding (decompress)

  /** Length of the run of digits at the start of `s` (_parse_count's scan). */
  function DigitRun(s: string): (n: nat)
    ensures n <= |s| && AllDigits(s[..n])
    ensures n < |s| ==> !IsDigit(s[n])
    decreases |s|
  {
    if s == [] || !IsDigit(s[0]) then 0
    else
      var m := DigitRun(s[1..]);
      assert s[..1 + m] == [s[0]] + s[1..][..m];
      1 + m
  }

  /**
   * What decompress computes: a character followed by digits stands for
   * that many copies of the character; any other character stands for
   * itself.
   */
  function Decode(s: string): string
    decreases |s|
  {
    if s == [] then []
    else if |s| >= 2 && IsDigit(s[1]) then
      var n := 1 + DigitRun(s[1..]);
      assert s[1..n] == s[1..][..n - 1];
      Repeat(s[0], ParseDigits(s[1..n])) + Decode(s[n..])
    else [s[0]] + Decode(s[1..])
  }

  lemma {:induction false} DecodeNoDigits(s: string)
    requires !HasDigit(s)
    ensures Decode(s) == s
    decreases |s|
  {
    if s != [] {
      assert !HasDigit(s[1..]) by {
        forall i | 0 <= i < |s[1..]| ensures !IsDigit(s[1..][i]) { assert s[1..][i] == s[i + 1]; }
      }
      DecodeNoDigits(s[1..]);
    }
  }

  lemma DigitRunExact(t: string, k: nat)
    requires k <= |t| && AllDigits(t[..k]) && (k < |t| ==> !IsDigit(t[k]))
    ensures DigitRun(t) == k
    decreases |t|
  {
    if k > 0 {
      assert IsDigit(t[..k][0]);
      assert t[1..][..k - 1] == t[1..k];
      DigitRunExact(t[1..], k - 1);
    } else if t != [] {
      assert !IsDigit(t[0]);
    }
  }

  predicate StartsWithNonDigit(t: string) { t == [] || !IsDigit(t[0]) }

  lemma DecodeSingle(c: char, t: string)
    requires StartsWithNonDigit(t)
    ensures Decode([c] + t) == [c] + Decode(t)
  {
    var u := [c] + t;
    assert u[1..] == t;
    assert |u| >= 2 ==> u[1] == t[0];
  }

  lemma DecodeRun(c: char, k: nat, t: string)
    requires StartsWithNonDigit(t)
    ensures Decode([c] + NatToString(k) + t) == Repeat(c, k) + Decode(t)
  {
    var ns := NatToString(k);
    var u := [c] + ns + t;
    assert u[1..] == ns + t;
    assert (ns + t)[..|ns|] == ns;
    DigitRunExact(ns + t, |ns|);
    assert u[1..1 + |ns|] == ns;
    assert u[1 + |ns|..] == t;
    ParseNatToString(k);
  }

  lemma {:induction false} DecodeRaw(chunk: string, t: string)
    requires !HasDigit(chunk) && StartsWithNonDigit(t)
    ensures Decode(chunk + t) == chunk + Decode(t)
    decreases |chunk|
  {
    if chunk != [] {
      var rest := chunk[1..];
      assert !HasDigit(rest) by {
        forall i | 0 <= i < |rest| ensures !IsDigit(rest[i]) { assert rest[i] == chunk[i + 1]; }
      }
      DecodeRaw(rest, t);
      assert chunk == [chunk[0]] + rest;
      assert chunk + t == [chunk[0]] + (rest + t);
      assert StartsWithNonDigit(rest + t) by {
        if rest != [] { assert (rest + t)[0] == chunk[1]; }
      }
      DecodeSingle(chunk[0], rest + t);
      calc {
        Decode(chunk + t);
        Decode([chunk[0]] + (rest + t));
        [chunk[0]] + Decode(rest + t);
        [chunk[0]] + (rest + Decode(t));
        chunk + Decode(t);
      }
    } else {
      assert chunk + t == t;
    }
  }

  lemma EncodeHead(s: string)
    ensures s == [] <==> Encode(s) == []
    ensures s != [] ==> Encode(s)[0] == s[0]
  {
  }

  lemma EncodeStartsNonDigit(s: string)
    requires !HasDigit(s)
    ensures StartsWithNonDigit(Encode(s))
  {
    EncodeHead(s);
    if s != [] {
      assert !IsDigit(s[0]);
    }
  }

  lemma RunIsRepeat(s: string)
    requires s != []
    ensures s[..RunLength(s)] == Repeat(s[0], RunLength(s))
  {
  }

  lemma NoDigitSuffix(s: string, k: nat)
    requires !HasDigit(s) && k <= |s|
    ensures !HasDigit(s[k..]) && !HasDigit(s[..k])
  {
    forall i | 0 <= i < |s[k..]| ensures !IsDigit(s[k..][i]) { assert s[k..][i] == s[k + i]; }
    forall i | 0 <= i < k ensures !IsDigit(s[..k][i]) { assert s[..k][i] == s[i]; }
  }

  /** The encoding of the first run of `s`. */
  function EncodeChunk(s: string): string
    requires s != []
  {
    var n := RunLength(s);
    if s[0] != DiagonalChar && n >= 3 then [s[0]] + NatToString(n) else s[..n]
  }

  lemma EncodeUnfold(s: string)
    requires s != []
    ensures Encode(s) == EncodeChunk(s) + Encode(s[RunLength(s)..])
  {
  }

  lemma DecodeChunk(s: string, tail: string)
    requires s != [] && !HasDigit(s[..RunLength(s)]) && StartsWithNonDigit(tail)
    ensures Decode(EncodeChunk(s) + tail) == s[..RunLength(s)] + Decode(tail)
  {
    var n := RunLength(s);
    if s[0] != DiagonalChar && n >= 3 {
      DecodeRun(s[0], n, tail);
      RunIsRepeat(s);
    } else {
      DecodeRaw(s[..n], tail);
    }
  }

  /** decompress undoes the run-length encoding of a digit-free string. */
  lemma {:induction false} DecodeEncode(s: string)
    requires !HasDigit(s)
    ensures Decode(Encode(s)) == s
    decreases |s|
  {
    if s != [] {
      var n := RunLength(s);
      var rest := s[n..];
      NoDigitSuffix(s, n);
      DecodeEncode(rest);
      DecodeEncodeStep(s, n, rest);
    }
  }

  /** One run of decode-after-encode, given the rest of the string round-trips. */
  lemma DecodeEncodeStep(s: string, n: nat, rest: string)
    requires s != [] && n == RunLength(s) && rest == s[n..]
    requires !HasDigit(s[..n]) && !HasDigit(rest) && Decode(Encode(rest)) == rest
    ensures Decode(Encode(s)) == s
  {
    DecodeEncodeFirstRun(s, rest);
    TakeDrop(s, n);
  }


  /** Decoding the encoding of `s` decodes its first run and then the encoding of the rest. */
  lemma DecodeEncodeFirstRun(s: string, rest: string)
    requires s != [] && rest == s[RunLength(s)..]
    requires !HasDigit(s[..RunLength(s)]) && !HasDigit(rest)
    ensures Decode(Encode(s)) == s[..RunLength(s)] + Decode(Encode(rest))
  {
    EncodeStartsNonDigit(rest);
    EncodeUnfold(s);
    DecodeChunk(s, Encode(rest));
  }


  /** decompress(compress(s)) == s for every digit-free string. */
  lemma CompressRoundTrip(s: string)
    requires !HasDigit(s)
    ensures Decode(Compress(s)) == s
  {
    if |s| <= 3 { DecodeNoDigits(s); } else { DecodeEncode(s); }
  }

  /** Whether the first run of `s` is one the substitution encodes. */
  predicate FirstRunLong(s: string)
    requires s != []
  {
    s[0] != DiagonalChar && RunLength(s) >= 3
  }

  lemma ChunkLength(s: string)
    requires s != []
    ensures FirstRunLong(s) ==> |EncodeChunk(s)| < RunLength(s)
    ensures !FirstRunLong(s) ==> EncodeChunk(s) == s[..RunLength(s)]
  {
    if FirstRunLong(s) { NatToStringShort(RunLength(s)); }
  }

  lemma LongRunNotFirst(s: string, i: nat)
    requires s != [] && !FirstRunLong(s)
    requires i + 2 < |s| && s[i] != DiagonalChar && s[i] == s[i + 1] && s[i + 1] == s[i + 2]
    ensures RunLength(s) <= i
  {
    var n := RunLength(s);
  }

  /** A long run of `s` is either its first run or lies wholly after it. */
  lemma LongRunSplit(s: string)
    requires s != []
    ensures HasLongRun(s) <==> FirstRunLong(s) || HasLongRun(s[RunLength(s)..])
  {
    if FirstRunLong(s) {
      FirstRunIsLong(s);
    }
    if HasLongRun(s) && !FirstRunLong(s) {
      LongRunPastFirst(s);
    }
    if HasLongRun(s[RunLength(s)..]) {
      LongRunOfRest(s);
    }
  }

  lemma FirstRunIsLong(s: string)
    requires s != [] && FirstRunLong(s)
    ensures HasLongRun(s)
  {
    assert s[0] == s[1] && s[1] == s[2];
  }

  lemma LongRunPastFirst(s: string)
    requires s != [] && HasLongRun(s) && !FirstRunLong(s)
    ensures HasLongRun(s[RunLength(s)..])
  {
    var n := RunLength(s);
    var rest := s[n..];
    var i :| 0 <= i && i + 2 < |s| && s[i] != DiagonalChar && s[i] == s[i + 1] && s[i + 1] == s[i + 2];
    LongRunNotFirst(s, i);
    assert rest[i - n] == s[i] && rest[i - n + 1] == s[i + 1] && rest[i - n + 2] == s[i + 2];
  }

  lemma LongRunOfRest(s: string)
    requires s != [] && HasLongRun(s[RunLength(s)..])
    ensures HasLongRun(s)
  {
    var n := RunLength(s);
    var rest := s[n..];
    var i :| 0 <= i && i + 2 < |rest| && rest[i] != DiagonalChar && rest[i] == rest[i + 1] && rest[i + 1] == rest[i + 2];
    var j := n + i;
    assert s[j] == rest[i] && s[j + 1] == rest[i + 1] && s[j + 2] == rest[i + 2];
    assert 0 <= j && j + 2 < |s| && s[j] != DiagonalChar && s[j] == s[j + 1] && s[j + 1] == s[j + 2];
  }

  lemma {:induction false} EncodeLength(s: string)
    ensures |Encode(s)| <= |s|
    ensures HasLongRun(s) ==> |Encode(s)| < |s|
    ensures !HasLongRun(s) ==> Encode(s) == s
    decreases |s|
  {
    if s != [] {
      var n := RunLength(s);
      EncodeLength(s[n..]);
      EncodeUnfold(s);
      ChunkLength(s);
      LongRunSplit(s);
      TakeDrop(s, n);
    }
  }

  /**
   * compress never lengthens a string, and it changes a string of more than
   * three characters exactly when the string holds a run of three or more
   * equal characters other than 'o'.
   */
  lemma CompressLength(s: string)
    ensures |Compress(s)| <= |s|
    ensures Compress(s) == s <==> |s| <= 3 || !HasLongRun(s)
  {
    EncodeLength(s);
  }

  /** The docstring's example: the trailing "dd" is a run of two and stays. */
  lemma CompressExample()
    ensures Compress("nnnnnpppdd") == "n5p3dd"
  {
    var s := "nnnnnpppdd";
    assert RunLength(s[9..]) == 1;
    assert RunLength(s[8..]) == 2 by { assert s[8..][1..] == s[9..]; }
    assert RunLength(s[7..]) == 1;
    assert RunLength(s[6..]) == 2 by { assert s[6..][1..] == s[7..]; }
    assert RunLength(s[5..]) == 3 by { assert s[5..][1..] == s[6..]; }
    assert RunLength(s[4..]) == 1;
    assert RunLength(s[3..]) == 2 by { assert s[3..][1..] == s[4..]; }
    assert RunLength(s[2..]) == 3 by { assert s[2..][1..] == s[3..]; }
    assert RunLength(s[1..]) == 4 by { assert s[1..][1..] == s[2..]; }
    assert RunLength(s) == 5 by { assert s[1..] == s[1..]; }
    EncodeUnfold(s);
    EncodeUnfold(s[5..]);
    assert s[5..][3..] == s[8..];
    EncodeUnfold(s[8..]);
    assert s[8..][2..] == [];
    assert EncodeChunk(s) == "n5";
    assert EncodeChunk(s[5..]) == "p3";
    assert EncodeChunk(s[8..]) == "dd";
  }

  // ---------------------------------------------------------------------
  // Walking the compressed string

  /** Decoding from position `i` when a run (a character and its count) starts there. */
  lemma DecodeRunAt(s: string, i: nat, j: nat)
    requires i + 1 < |s| && IsDigit(s[i + 1])
    requires i + 1 < j <= |s| && j == i + 1 + DigitRun(s[i + 1..]) && AllDigits(s[i + 1..j])
    ensures Decode(s[i..]) == Repeat(s[i], ParseDigits(s[i + 1..j])) + Decode(s[j..])
  {
    var t := s[i..];
    assert t[0] == s[i] && t[1] == s[i + 1];
    assert t[1..] == s[i + 1..];
    assert t[1..j - i] == s[i + 1..j];
    assert t[j - i..] == s[j..];
  }

  /** Decoding from position `i` when a single character stands there. */
  lemma DecodeSingleAt(s: string, i: nat)
    requires i < |s| && !(i + 1 < |s| && IsDigit(s[i + 1]))
    ensures Decode(s[i..]) == [s[i]] + Decode(s[i + 1..])
  {
    var t := s[i..];
    assert t[1..] == s[i + 1..];
  }

  /** _parse_count: the digits starting at `start` and the index after them. */
  method ParseCount(s: string, start: nat) returns (count: nat, j: nat)
    requires start < |s| && IsDigit(s[start])
    ensures start < j <= |s| && j == start + DigitRun(s[start..])
    ensures AllDigits(s[start..j])
    ensures count == ParseDigits(s[start..j])
  {
    j := start;
    while j < |s| && IsDigit(s[j])
      invariant start <= j <= |s|
      invariant AllDigits(s[start..j])
    {
      assert s[start..j + 1] == s[start..j] + [s[j]];
      j := j + 1;
    }
    assert s[start..][..j - start] == s[start..j];
    DigitRunExact(s[start..], j - start);
    count := ParseDigits(s[start..j]);
  }

  /** decompress */
  method Decompress(s: string) returns (r: string)
    ensures r == Decode(s)
  {
    if s == [] || (|s| <= 3 && !HasDigit(s)) {
      DecodeNoDigits(s);
      return s;
    }
    r := [];
    var i := 0;
    while i < |s|
      invariant 0 <= i <= |s|
      invariant r + Decode(s[i..]) == Decode(s)
    {
      if i + 1 < |s| && IsDigit(s[i + 1]) {
        var c := s[i];
        var count, j := ParseCount(s, i + 1);
        DecodeRunAt(s, i, j);
        Regroup(r, Repeat(c, count), Decode(s[j..]), Decode(s));
        r := r + Repeat(c, count);
        i := j;
      } else {
        DecodeSingleAt(s, i);
        Regroup(r, [s[i]], Decode(s[i + 1..]), Decode(s));
        r := r + [s[i]];
        i := i + 1;
      }
    }
  }


  /** The character of the first run (a character followed by digits), if any. */
  function FirstRunChar(s: string): Option<char>
    decreases |s|
  {
    if s == [] then None
    else if |s| >= 2 && IsDigit(s[1]) then Some(s[0])
    else FirstRunChar(s[1..])
  }

  lemma FirstRunCharAt(s: string, i: nat)
    requires i < |s|
    ensures i + 1 < |s| && IsDigit(s[i + 1]) ==> FirstRunChar(s[i..]) == Some(s[i])
    ensures !(i + 1 < |s| && IsDigit(s[i + 1])) ==> FirstRunChar(s[i..]) == FirstRunChar(s[i + 1..])
  {
    var t := s[i..];
    assert t[1..] == s[i + 1..];
  }

  lemma IndexInRun(done: string, c: char, count: nat, rest: string, index: int)
    requires |done| <= index < |done| + count
    ensures index < |done + Repeat(c, count) + rest|
    ensures (done + Repeat(c, count) + rest)[index] == c
  {
    assert (done + Repeat(c, count) + rest)[index] == Repeat(c, count)[index - |done|];
  }

  /**
   * get_char_at.  For a negative index the walk returns the character of
   * the first run, because every run passes the `> index` test.
   */
  method GetCharAt(s: string, index: int) returns (r: Result<char>)
    ensures 0 <= index < |Decode(s)| ==> r == Ok(Decode(s)[index])
    ensures index >= |Decode(s)| ==> r == Err(IndexError)
    ensures index < 0 ==> r == (if FirstRunChar(s).Some? then Ok(FirstRunChar(s).value) else Err(IndexError))
  {
    var d := 0;
    var i := 0;
    ghost var done: string := [];
    while i < |s|
      invariant 0 <= i <= |s|
      invariant done + Decode(s[i..]) == Decode(s)
      invariant d == |done|
      invariant index >= 0 ==> d <= index
      invariant index < 0 ==> FirstRunChar(s[i..]) == FirstRunChar(s)
    {
      if i + 1 < |s| && IsDigit(s[i + 1]) {
        var c := s[i];
        var count, j := ParseCount(s, i + 1);
        DecodeRunAt(s, i, j);
        FirstRunCharAt(s, i);
        Regroup(done, Repeat(c, count), Decode(s[j..]), Decode(s));
        if d + count > index {
          if index >= 0 {
            IndexInRun(done, c, count, Decode(s[j..]), index);
          }
          return Ok(c);
        }
        d := d + count;
        done := done + Repeat(c, count);
        i := j;
      } else {
        DecodeSingleAt(s, i);
        FirstRunCharAt(s, i);
        Regroup(done, [s[i]], Decode(s[i + 1..]), Decode(s));
        if d == index {
          IndexInRun(done, s[i], 1, Decode(s[i + 1..]), index);
          return Ok(s[i]);
        }
        d := d + 1;
        done := done + [s[i]];
        i := i + 1;
      }
    }
    return Err(IndexError);
  }

  /**
   * set_char_at.  The new string is compressed again, so for a digit-free
   * row and a non-digit character the decoded row changes in position
   * `index` only.
   */
  method SetCharAt(s: string, index: int, newChar: string) returns (r: Result<string>)
    ensures |newChar| != 1 ==> r.Err? && r.error.ValueError?
    ensures |newChar| == 1 && index >= |Decode(s)| ==> r == Err(IndexError)
    ensures |newChar| == 1 && index < |Decode(s)| ==> r.Ok?
    ensures |newChar| == 1 && 0 <= index < |Decode(s)| && !HasDigit(Decode(s)) && !IsDigit(newChar[0])
            ==> r.Ok? && Decode(r.value) == Decode(s)[index := newChar[0]]
    ensures |newChar| == 1 && -|Decode(s)| <= index < -1 && !HasDigit(Decode(s)) && !IsDigit(newChar[0])
            ==> r.Ok? && Decode(r.value) == Decode(s)[|Decode(s)| + index := newChar[0]]
    ensures |newChar| == 1 && index == -1 && Decode(s) != [] && !HasDigit(Decode(s)) && !IsDigit(newChar[0])
            ==> r.Ok? && Decode(r.value) == Decode(s)[..|Decode(s)| - 1] + newChar + Decode(s)
    ensures |newChar| == 1 && index < -|Decode(s)| && !HasDigit(Decode(s)) && !IsDigit(newChar[0])
            ==> r.Ok? && Decode(r.value) == newChar + Decode(s)
  {
    if |newChar| != 1 {
      return Err(ValueError("new_char must be a single character"));
    }
    var decompressed := Decompress(s);
    if index >= |decompressed| {
      return Err(IndexError);
    }
    var updated := Upto(decompressed, index) + newChar + From(decompressed, index + 1);
    if !HasDigit(decompressed) && !IsDigit(newChar[0]) {
      if 0 <= index {
        assert updated == decompressed[index := newChar[0]];
      } else if -|decompressed| <= index < -1 {
        assert updated == decompressed[|decompressed| + index := newChar[0]];
      }
      assert !HasDigit(newChar);
      SpliceNoDigits(decompressed, index, newChar);
      CompressRoundTrip(updated);
    }
    return Ok(Compress(updated));
  }

  // ---------------------------------------------------------------------
  // Whole grids

  /** keys.index(k): the first position of `k`. */
  function IndexOf(keys: seq<string>, k: string): (i: nat)
    requires k in keys
    ensures i < |keys| && keys[i] == k
    ensures forall j :: 0 <= j < i ==> keys[j] != k
  {
    if keys[0] == k then 0 else 1 + IndexOf(keys[1..], k)
  }

  /** A decoded row of length `n` with 'o' at `diag` and 'p' everywhere else. */
  predicate IsInitialRow(row: string, diag: nat, n: nat) {
    |row| == n && forall j :: 0 <= j < n ==> row[j] == (if j == diag then DiagonalChar else PlaceholderChar)
  }

  function InitialRow(diag: nat, n: nat): (row: string)
    requires diag < n
    ensures IsInitialRow(row, diag, n) && !HasDigit(row)
  {
    Repeat(PlaceholderChar, diag) + [DiagonalChar] + Repeat(PlaceholderChar, n - diag - 1)
  }

  lemma InitialRowsDecode(keys: seq<string>, g: map<string, string>)
    requires forall k | k in keys :: k in g && g[k] == Compress(InitialRow(IndexOf(keys, k), |keys|))
    ensures forall k | k in keys :: IsInitialRow(Decode(g[k]), IndexOf(keys, k), |keys|)
  {
    forall k | k in keys ensures IsInitialRow(Decode(g[k]), IndexOf(keys, k), |keys|) {
      CompressRoundTrip(InitialRow(IndexOf(keys, k), |keys|));
    }
  }

  /**
   * create_initial_grid: ValueError for an empty or invalid key list;
   * otherwise one row per key decoding to 'o' at the key's (first) index
   * and 'p' everywhere else.
   */
  function CreateInitialGrid(keys: seq<string>): (r: Result<map<string, string>>)
    ensures r.Err? <==> keys == [] || exists k | k in keys :: !KeyManager.ValidateKey(k)
    ensures r.Err? ==> r.error.ValueError?
    ensures r.Ok? ==> r.value.Keys == (set k | k in keys)
    ensures r.Ok? ==> forall k | k in keys :: IsInitialRow(Decode(r.value[k]), IndexOf(keys, k), |keys|)
  {
    if keys == [] || exists k | k in keys :: !KeyManager.ValidateKey(k) then
      Err(ValueError("All keys must be valid non-empty strings"))
    else
      var g := map k | k in keys :: Compress(InitialRow(IndexOf(keys, k), |keys|));
      InitialRowsDecode(keys, g);
      Ok(g)
  }

  /**
   * The checks validate_grid performs once the keys are sorted: every key
   * has a row, every row decodes to |keys| characters, and every row has
   * 'o' at its key's own index in the given order.
   */
  predicate GridValid(grid: map<string, string>, keys: seq<string>) {
    (forall k | k in keys :: k in grid)
    && forall k | k in keys :: |Decode(grid[k])| == |keys| && Decode(grid[k])[IndexOf(keys, k)] == DiagonalChar
  }

  /** validate_grid as written: it first sorts the keys with KeyManager.SortKeys. */
  function ValidateGrid(grid: map<string, string>, keys: seq<string>): (ok: bool)
    ensures ok <==> KeyManager.SortKeys(keys).Ok? && GridValid(grid, keys)
  {
    match KeyManager.SortKeys(keys)
    case Err(_) => false
    case Ok(sorted) =>
      (forall k | k in sorted :: k in grid)
      && forall k | k in keys :: |Decode(grid[k])| == |keys| && Decode(grid[k])[IndexOf(keys, k)] == DiagonalChar
  }

  /** The sort failure makes validate_grid reject every grid over well-formed keys. */
  lemma ValidateGridRejectsValidKeys(grid: map<string, string>, keys: seq<string>)
    requires keys != [] && forall k | k in keys :: KeyManager.ValidateKey(k)
    ensures !ValidateGrid(grid, keys)
  {
    KeyManager.SortKeysFailsOnValidKey(keys, keys[0]);
  }

  /** A freshly created grid passes the checks of validate_grid. */
  lemma InitialGridValid(keys: seq<string>)
    requires CreateInitialGrid(keys).Ok?
    ensures GridValid(CreateInitialGrid(keys).value, keys)
  {
    var g := CreateInitialGrid(keys).value;
    forall k | k in keys ensures |Decode(g[k])| == |keys| && Decode(g[k])[IndexOf(keys, k)] == DiagonalChar {
      assert IsInitialRow(Decode(g[k]), IndexOf(keys, k), |keys|);
    }
  }

  /**
   * validate_grid as evidently intended: the keys put in natural order (a
   * TypeError, and so False, when two keys cannot be compared), then the checks.
   */
  function ValidateGridNatural(grid: map<string, string>, keys: seq<string>): (ok: bool)
    ensures ok <==> NaturalOrder.Comparable(keys) && GridValid(grid, keys)
  {
    match NaturalOrder.NaturalSort(keys)
    case Err(_) => false
    case Ok(sorted) =>
      assert forall k :: k in sorted <==> k in keys by {
        forall k ensures k in sorted <==> k in keys {
          assert k in sorted <==> k in multiset(sorted);
          assert k in keys <==> k in multiset(keys);
        }
      }
      (forall k | k in sorted :: k in grid)
      && forall k | k in keys :: |Decode(grid[k])| == |keys| && Decode(grid[k])[IndexOf(keys, k)] == DiagonalChar
  }

  /** A valid key starts with a digit. */
  lemma ValidKeyStartsWithDigit(k: string)
    requires KeyManager.ValidateKey(k)
    ensures k != [] && IsDigit(k[0])
  {
    if !KeyManager.KeyShape(k) {
      assert KeyManager.KeyShape(k[..|k| - 1]);
      assert k[..|k| - 1][0] == k[0];
    }
  }

  /**
   * Over valid keys the corrected validate_grid accepts exactly the grids
   * that pass the checks, so every freshly created grid.
   */
  lemma ValidKeysValidateNatural(grid: map<string, string>, keys: seq<string>)
    requires forall k | k in keys :: KeyManager.ValidateKey(k)
    ensures ValidateGridNatural(grid, keys) <==> GridValid(grid, keys)
    ensures CreateInitialGrid(keys).Ok? ==> ValidateGridNatural(CreateInitialGrid(keys).value, keys)
  {
    forall i | 0 <= i < |keys| ensures keys[i] != [] && IsDigit(keys[i][0]) {
      ValidKeyStartsWithDigit(keys[i]);
    }
    assert NaturalOrder.Comparable(keys);
    if CreateInitialGrid(keys).Ok? {
      InitialGridValid(keys);
    }
  }

  // ---------------------------------------------------------------------
  // Single-cell edits

  /** The decoded row of `key`, or 'p' repeated when the grid has none. */
  function RowOf(grid: map<string, string>, key: string, n: nat): string {
    Decode(if key in grid then grid[key] else Repeat(PlaceholderChar, n))
  }

  /** Splicing digit-free pieces together gives a digit-free row. */
  lemma SpliceNoDigits(row: string, t: int, cell: string)
    requires !HasDigit(row) && !HasDigit(cell)
    ensures !HasDigit(Upto(row, t) + cell + From(row, t + 1))
  {
    var pre, post := Upto(row, t), From(row, t + 1);
    var newRow := pre + cell + post;
    forall i | 0 <= i < |newRow| ensures !IsDigit(newRow[i]) {
      if i < |pre| {
        assert newRow[i] == row[i];
      } else if i < |pre| + |cell| {
        assert newRow[i] == cell[i - |pre|];
      } else {
        assert newRow[i] == post[i - |pre| - |cell|];
      }
    }
  }

  /**
   * The shared body of add_ and remove_dependency_from_grid: the row of
   * `source` with `cell` spliced in at `t` (Python slicing), recompressed.
   */
  method WriteCell(grid: map<string, string>, source: string, t: nat, cell: string, n: nat)
    returns (g: map<string, string>)
    ensures g.Keys == grid.Keys + {source}
    ensures forall k | k in grid && k != source :: g[k] == grid[k]
    ensures var row := RowOf(grid, source, n);
            !HasDigit(row) && !HasDigit(cell) ==> Decode(g[source]) == Upto(row, t) + cell + From(row, t + 1)
    ensures var row := RowOf(grid, source, n);
            |cell| == 1 && t < |row| && !HasDigit(row) && !IsDigit(cell[0])
            ==> Decode(g[source]) == row[t := cell[0]]
  {
    var row := Decompress(if source in grid then grid[source] else Repeat(PlaceholderChar, n));
    var newRow := Upto(row, t) + cell + From(row, t + 1);
    if !HasDigit(row) && !HasDigit(cell) {
      SpliceNoDigits(row, t, cell);
      CompressRoundTrip(newRow);
      if |cell| == 1 && t < |row| {
        SpliceOne(row, t, cell);
      }
    }
    g := grid[source := Compress(newRow)];
  }

  /** Splicing one character in at an index inside the row is an update of that index. */
  lemma SpliceOne(row: string, t: nat, cell: string)
    requires |cell| == 1 && t < |row|
    ensures Upto(row, t) + cell + From(row, t + 1) == row[t := cell[0]]
  {
    var newRow := Upto(row, t) + cell + From(row, t + 1);
    assert |newRow| == |row|;
    forall i | 0 <= i < |row| ensures newRow[i] == row[t := cell[0]][i] {
      if i < t {
        assert newRow[i] == row[i];
      } else if i > t {
        assert newRow[i] == From(row, t + 1)[i - t - 1];
      }
    }
  }

  /**
   * add_dependency_to_grid: ValueError unless both keys are listed; the
   * grid itself when they are the same key; otherwise a copy in which only
   * the row of `source` changes, and only at the target's column.
   */
  method AddDependencyToGrid(grid: map<string, string>, source: string, target: string,
                             keys: seq<string>, depType: string)
    returns (r: Result<map<string, string>>)
    ensures r.Err? <==> source !in keys || target !in keys
    ensures r.Err? ==> r.error.ValueError?
    ensures r.Ok? && source == target ==> r.value == grid
    ensures r.Ok? && source != target ==> r.value.Keys == grid.Keys + {source}
    ensures r.Ok? ==> forall k | k in grid && k != source :: r.value[k] == grid[k]
    ensures r.Ok? && source != target ==>
              var row, t := RowOf(grid, source, |keys|), IndexOf(keys, target);
              !HasDigit(row) && !HasDigit(depType) ==> Decode(r.value[source]) == Upto(row, t) + depType + From(row, t + 1)
    ensures r.Ok? && source != target ==>
              var row, t := RowOf(grid, source, |keys|), IndexOf(keys, target);
              |depType| == 1 && t < |row| && !HasDigit(row) && !IsDigit(depType[0])
              ==> Decode(r.value[source]) == row[t := depType[0]]
  {
    if source !in keys || target !in keys {
      return Err(ValueError("Keys not in keys list"));
    }
    var sourceIdx, targetIdx := IndexOf(keys, source), IndexOf(keys, target);
    if sourceIdx == targetIdx {
      return Ok(grid);
    }
    var g := WriteCell(grid, source, targetIdx, depType, |keys|);
    return Ok(g);
  }

  /** remove_dependency_from_grid: as AddDependencyToGrid, writing '.'. */
  method RemoveDependencyFromGrid(grid: map<string, string>, source: string, target: string, keys: seq<string>)
    returns (r: Result<map<string, string>>)
    ensures r.Err? <==> source !in keys || target !in keys
    ensures r.Err? ==> r.error.ValueError?
    ensures r.Ok? && source == target ==> r.value == grid
    ensures r.Ok? && source != target ==> r.value.Keys == grid.Keys + {source}
    ensures r.Ok? ==> forall k | k in grid && k != source :: r.value[k] == grid[k]
    ensures r.Ok? && source != target ==>
              var row, t := RowOf(grid, source, |keys|), IndexOf(keys, target);
              t < |row| && !HasDigit(row) ==> Decode(r.value[source]) == row[t := EmptyChar]
  {
    if source !in keys || target !in keys {
      return Err(ValueError("Keys not in keys list"));
    }
    var sourceIdx, targetIdx := IndexOf(keys, source), IndexOf(keys, target);
    if sourceIdx == targetIdx {
      return Ok(grid);
    }
    var g := WriteCell(grid, source, targetIdx, [EmptyChar], |keys|);
    return Ok(g);
  }

  // ---------------------------------------------------------------------
  // Categorisation

  /** The characters get_dependencies_from_grid groups by. */
  predicate IsGroupChar(c: char) {
    c == 'x' || c == 'd' || c == 'S' || c == 's' || c == '>' || c == '<' || c == 'p'
  }

  /** The character in `key`'s row at column `i`, '.' if the row is missing or too short. */
  function CellChar(grid: map<string, string>, key: string, i: nat): char {
    if key in grid && i < |Decode(grid[key])| then Decode(grid[key])[i] else EmptyChar
  }

  /** The other keys among the first `upto` whose column in `key`'s row holds `c`. */
  ghost function Members(grid: map<string, string>, key: string, keys: seq<string>, c: char, upto: nat): set<string>
    requires upto <= |keys|
  {
    set i | 0 <= i < upto && keys[i] != key && CellChar(grid, key, i) == c :: keys[i]
  }

  lemma MembersStep(grid: map<string, string>, key: string, keys: seq<string>, c: char, i: nat)
    requires i < |keys|
    ensures Members(grid, key, keys, c, i + 1)
            == Members(grid, key, keys, c, i) + (if keys[i] != key && CellChar(grid, key, i) == c then {keys[i]} else {})
  {
  }

  /**
   * get_dependencies_from_grid: ValueError for an unknown key; otherwise,
   * for each group character, exactly the other keys whose column in the
   * key's own row holds it, and only the group characters that occur.
   */
  method GetDependenciesFromGrid(grid: map<string, string>, key: string, keys: seq<string>)
    returns (r: Result<map<char, set<string>>>)
    ensures r.Err? <==> key !in keys
    ensures r.Err? ==> r.error.ValueError?
    ensures r.Ok? ==> forall c :: c in r.value <==> IsGroupChar(c) && Members(grid, key, keys, c, |keys|) != {}
    ensures r.Ok? ==> forall c | c in r.value :: r.value[c] == Members(grid, key, keys, c, |keys|)
  {
    if key !in keys {
      return Err(ValueError("Key not in keys list"));
    }
    var results: map<char, set<string>> := map[];
    var i := 0;
    while i < |keys|
      invariant 0 <= i <= |keys|
      invariant forall c :: c in results <==> IsGroupChar(c) && Members(grid, key, keys, c, i) != {}
      invariant forall c | c in results :: results[c] == Members(grid, key, keys, c, i)
    {
      var other := keys[i];
      ghost var before := results;
      if key != other {
        var got := ReadCell(grid, key, i);
        if IsGroupChar(got) {
          results := results[got := (if got in results then results[got] else {}) + {other}];
        }
      }
      ResultsStep(grid, key, keys, i, before, results);
      i := i + 1;
    }
    return Ok(results);
  }

  /** The character the loop of get_dependencies_from_grid reads for column i of `key`'s row. */
  method ReadCell(grid: map<string, string>, key: string, i: nat) returns (ch: char)
    ensures ch == CellChar(grid, key, i)
  {
    ch := EmptyChar;
    if key in grid && grid[key] != [] {
      var got := GetCharAt(grid[key], i);
      if got.Ok? { ch := got.value; }
    }
  }

  /** One column's update keeps the result equal to the members seen so far. */
  lemma ResultsStep(grid: map<string, string>, key: string, keys: seq<string>, i: nat,
                    before: map<char, set<string>>, after: map<char, set<string>>)
    requires i < |keys|
    requires forall c :: c in before <==> IsGroupChar(c) && Members(grid, key, keys, c, i) != {}
    requires forall c | c in before :: before[c] == Members(grid, key, keys, c, i)
    requires var ch := CellChar(grid, key, i);
             after == if keys[i] != key && IsGroupChar(ch)
                      then before[ch := (if ch in before then before[ch] else {}) + {keys[i]}]
                      else before
    ensures forall c :: c in after <==> IsGroupChar(c) && Members(grid, key, keys, c, i + 1) != {}
    ensures forall c | c in after :: after[c] == Members(grid, key, keys, c, i + 1)
  {
    forall c { MembersStep(grid, key, keys, c, i); }
  }

  // ---------------------------------------------------------------------
  // Display

  /** The row shown for `key`: its stored row or an all-'p' row. */
  function DisplayRow(grid: map<string, string>, key: string, n: nat): string {
    if key in grid then grid[key] else Compress(Repeat(PlaceholderChar, n))
  }

  function DisplayLines(grid: map<string, string>, keys: seq<string>, rows: seq<string>): (r: seq<string>)
    ensures |r| == |rows|
    ensures forall j :: 0 <= j < |rows| ==> r[j] == rows[j] + " = " + DisplayRow(grid, rows[j], |keys|)
  {
    seq(|rows|, j requires 0 <= j < |rows| => rows[j] + " = " + DisplayRow(grid, rows[j], |keys|))
  }

  /** format_grid_for_display: an "X" header line, then one "key = row" line per key. */
  function FormatGridForDisplay(grid: map<string, string>, keys: seq<string>): string {
    Join("\n", ["X " + Join(" ", keys)] + DisplayLines(grid, keys, keys))
  }

  /** Encoding introduces no character other than digits. */
  lemma {:induction false} EncodeNoChar(s: string, c: char)
    requires NoChar(s, c) && !IsDigit(c)
    ensures NoChar(Encode(s), c)
    decreases |s|
  {
    if s != [] {
      var n := RunLength(s);
      ChunkNoChar(s, c);
      NoCharSuffix(s, n, c);
      EncodeNoChar(s[n..], c);
      EncodeUnfold(s);
      NoCharConcat(EncodeChunk(s), Encode(s[n..]), c);
    }
  }

  lemma ChunkNoChar(s: string, c: char)
    requires s != [] && NoChar(s, c) && !IsDigit(c)
    ensures NoChar(EncodeChunk(s), c)
  {
    var n := RunLength(s);
    var head := EncodeChunk(s);
    forall i | 0 <= i < |head| ensures head[i] != c {
      if !(s[0] != DiagonalChar && n >= 3) { assert head[i] == s[i]; }
      else if i > 0 { assert head[i] == NatToString(n)[i - 1]; }
    }
  }

  lemma NoCharSuffix(s: string, n: nat, c: char)
    requires NoChar(s, c) && n <= |s|
    ensures NoChar(s[n..], c)
  {
    forall i | 0 <= i < |s[n..]| ensures s[n..][i] != c { assert s[n..][i] == s[n + i]; }
  }

  lemma DisplayRowNoNewline(grid: map<string, string>, key: string, n: nat)
    requires forall k | k in grid :: NoChar(grid[k], '\n')
    ensures NoChar(DisplayRow(grid, key, n), '\n')
  {
    if key !in grid {
      EncodeNoChar(Repeat(PlaceholderChar, n), '\n');
    }
  }

  lemma DisplayLineNoNewline(grid: map<string, string>, key: string, n: nat)
    requires NoChar(key, '\n') && forall k | k in grid :: NoChar(grid[k], '\n')
    ensures NoChar(key + " = " + DisplayRow(grid, key, n), '\n')
  {
    DisplayRowNoNewline(grid, key, n);
    NoCharConcat(key, " = ", '\n');
    NoCharConcat(key + " = ", DisplayRow(grid, key, n), '\n');
  }

  lemma HeaderNoNewline(keys: seq<string>)
    requires forall k | k in keys :: NoChar(k, '\n')
    ensures NoChar("X " + Join(" ", keys), '\n')
  {
    JoinNoChar(keys, ' ', '\n');
    NoCharConcat("X ", Join(" ", keys), '\n');
  }

  /**
   * The display text splits at line breaks into the "X" header followed by
   * one "key = row" line per key, in the order of `keys`, when no key and
   * no row contains a line break.
   */
  lemma FormatGridLines(grid: map<string, string>, keys: seq<string>)
    requires forall k | k in keys :: NoChar(k, '\n')
    requires forall k | k in grid :: NoChar(grid[k], '\n')
    ensures var lines := Split(FormatGridForDisplay(grid, keys), "\n");
      && |lines| == |keys| + 1
      && lines[0] == "X " + Join(" ", keys)
      && forall j :: 0 <= j < |keys| ==> lines[j + 1] == keys[j] + " = " + DisplayRow(grid, keys[j], |keys|)
  {
    var parts := ["X " + Join(" ", keys)] + DisplayLines(grid, keys, keys);
    forall w | w in parts ensures NoChar(w, '\n') {
      var j :| 0 <= j < |parts| && parts[j] == w;
      if j == 0 {
        HeaderNoNewline(keys);
      } else {
        assert keys[j - 1] in keys;
        DisplayLineNoNewline(grid, keys[j - 1], |keys|);
      }
    }
    SplitJoin(parts, '\n');
  }
}
