/**
 * The pure rules of cmd_bind.c and cmd_exec.c: placeholder names with and
 * without the leading colon, the case-insensitive search behind the
 * BLOB/CLOB name hints, the order in which the two spellings of a name are
 * tried, and the decision how a scalar value is bound.
 */
module BindRules {
  import opened Wrappers
  import opened Tcl
  import opened Native

  /** Size of the stack buffer with_colon writes into. */
  const NameBufferSize: nat := 256
  /** Longest string (in bytes of Tcl's internal form) bound as a plain value. */
  const LobThreshold: nat := 4000

  // ---------------------------------------------------------------------
  // Colons
  // ---------------------------------------------------------------------

  /**
   * with_colon: ":" + name when it fits a buffer of cap bytes together with
   * the terminating NUL, None (the C function's 0) otherwise.
   */
  function WithColon(name: string, cap: nat): (r: Option<string>)
    ensures r.Some? <==> |Rep(name)| + 2 <= cap
    ensures r.Some? ==> |r.value| == |name| + 1 && r.value[0] == ':' && r.value[1..] == name
  {
    if cap < |Rep(name)| + 2 then None else Some([':'] + name)
  }

  /** strip_colon: drop at most one leading ':'. */
  function StripColon(raw: string): (r: string)
    ensures |raw| > 0 && raw[0] == ':' ==> r == raw[1..]
    ensures !(|raw| > 0 && raw[0] == ':') ==> r == raw
  {
    if |raw| > 0 && raw[0] == ':' then raw[1..] else raw
  }

  /** Stripping undoes adding the colon. */
  lemma StripWithColon(name: string, cap: nat)
    requires WithColon(name, cap).Some?
    ensures StripColon(WithColon(name, cap).value) == name
  {
  }

  /** Only one colon goes: a name written with two colons keeps the second. */
  lemma StripColonOnce(name: string)
    ensures StripColon("::" + name) == ":" + name
    ensures StripColon(StripColon("::" + name)) == name
  {
    assert ("::" + name)[1..] == ":" + name;
    assert (":" + name)[1..] == name;
  }

  // ---------------------------------------------------------------------
  // Case-insensitive search (strcasestr_contains, strncasecmp in the C locale)
  // ---------------------------------------------------------------------

  function Lower(c: char): char
  {
    if 'A' <= c <= 'Z' then ((c as int) + 32) as char else c
  }

  /** needle occurs in hay at position i, ignoring ASCII case. */
  predicate MatchesAt(hay: string, i: nat, needle: string)
  {
    i + |needle| <= |hay| && forall k :: 0 <= k < |needle| ==> Lower(hay[i + k]) == Lower(needle[k])
  }

  /** strcasestr_contains: a non-empty needle occurs somewhere in hay, ignoring ASCII case. */
  predicate ContainsFold(hay: string, needle: string)
  {
    |needle| > 0 && exists i: nat :: i < |hay| && MatchesAt(hay, i, needle)
  }

  /** strcasestr_contains, as the C loop runs: try each starting position in turn. */
  method StrCaseStrContains(hay: string, needle: string) returns (found: bool)
    ensures found <==> ContainsFold(hay, needle)
  {
    if |needle| == 0 {
      return false;
    }
    var p := 0;
    while p < |hay|
      invariant 0 <= p <= |hay|
      invariant forall i: nat :: i < p ==> !MatchesAt(hay, i, needle)
    {
      if p + |needle| <= |hay| && forall k :: 0 <= k < |needle| ==> Lower(hay[p + k]) == Lower(needle[k]) {
        assert MatchesAt(hay, p, needle);
        return true;
      }
      p := p + 1;
    }
    return false;
  }

  /** A word found in a part is found in the whole. */
  lemma ContainsFoldExtend(a: string, hay: string, b: string, needle: string)
    requires ContainsFold(hay, needle)
    ensures ContainsFold(a + hay + b, needle)
  {
    var i: nat :| i < |hay| && MatchesAt(hay, i, needle);
    var whole := a + hay + b;
    forall k | 0 <= k < |needle|
      ensures Lower(whole[|a| + i + k]) == Lower(needle[k])
    {
      assert whole[|a| + i + k] == hay[i + k];
    }
    assert MatchesAt(whole, |a| + i, needle);
  }

  /** The text with every ASCII capital lowered. */
  function LowerAll(s: string): (r: string)
    ensures |r| == |s| && forall k :: 0 <= k < |s| ==> r[k] == Lower(s[k])
  {
    seq(|s|, k requires 0 <= k < |s| => Lower(s[k]))
  }

  /** Lowering is idempotent. */
  lemma LowerLower(c: char)
    ensures Lower(Lower(c)) == Lower(c)
  {
  }

  /** The case of the text and of the word does not matter to the search. */
  lemma {:induction false} ContainsFoldIgnoresCase(hay: string, needle: string)
    ensures ContainsFold(LowerAll(hay), needle) <==> ContainsFold(hay, needle)
    ensures ContainsFold(hay, LowerAll(needle)) <==> ContainsFold(hay, needle)
  {
    var lh, ln := LowerAll(hay), LowerAll(needle);
    forall i: nat | i < |hay|
      ensures MatchesAt(lh, i, needle) <==> MatchesAt(hay, i, needle)
      ensures MatchesAt(hay, i, ln) <==> MatchesAt(hay, i, needle)
    {
      forall k | 0 <= k < |hay| {
        LowerLower(hay[k]);
      }
      forall k | 0 <= k < |needle| {
        LowerLower(needle[k]);
      }
    }
    if ContainsFold(lh, needle) {
      var i: nat :| i < |lh| && MatchesAt(lh, i, needle);
      assert MatchesAt(hay, i, needle);
    }
    if ContainsFold(hay, needle) {
      var i: nat :| i < |hay| && MatchesAt(hay, i, needle);
      assert MatchesAt(lh, i, needle);
      assert MatchesAt(hay, i, ln);
    }
    if ContainsFold(hay, ln) {
      var i: nat :| i < |hay| && MatchesAt(hay, i, ln);
      assert MatchesAt(hay, i, needle);
    }
  }

  /** Text shorter than the word, or without a 'b' at all, does not contain "blob". */
  lemma NoBlobWithoutB(hay: string)
    requires forall k :: 0 <= k < |hay| ==> Lower(hay[k]) != 'b'
    ensures !ContainsFold(hay, "blob")
  {
    forall i: nat | i < |hay|
      ensures !MatchesAt(hay, i, "blob")
    {
      if i + 4 <= |hay| {
        assert Lower(hay[i + 0]) != Lower("blob"[0]);
      }
    }
  }

  // ---------------------------------------------------------------------
  // Hints
  // ---------------------------------------------------------------------

  /** is_blob_hint: the name is "b" or "B", or contains "blob" in any case; never for "". */
  predicate IsBlobHint(name: string)
  {
    |name| > 0 && ((|name| == 1 && (name[0] == 'b' || name[0] == 'B')) || ContainsFold(name, "blob"))
  }

  /** is_clob_hint: the name is "c" or "C", or contains "clob" in any case; never for "". */
  predicate IsClobHint(name: string)
  {
    |name| > 0 && ((|name| == 1 && (name[0] == 'c' || name[0] == 'C')) || ContainsFold(name, "clob"))
  }

  /** Any name with "blob" in it, in any case and position, is a BLOB hint; "" is no hint. */
  lemma BlobHints(prefix: string, word: string, suffix: string)
    requires LowerAll(word) == "blob"
    ensures IsBlobHint(prefix + word + suffix)
    ensures IsBlobHint("b") && IsBlobHint("B") && !IsBlobHint("") && !IsClobHint("")
  {
    assert forall k :: 0 <= k < 4 ==> Lower(word[k]) == "blob"[k] == Lower("blob"[k]);
    assert MatchesAt(word, 0, "blob");
    ContainsFoldExtend(prefix, word, suffix, "blob");
  }

  // ---------------------------------------------------------------------
  // Which spelling of a name is tried first
  // ---------------------------------------------------------------------

  /** cmd_bind.c tries ":name" first, cmd_exec.c the bare name first. */
  datatype BindOrder = ColonFirst | BareFirst

  /** The names handed to the driver, in order; ":name" only when it fits the 256-byte buffer. */
  function Attempts(name: string, order: BindOrder): (r: seq<string>)
    ensures name in r && 1 <= |r| <= 2
    ensures |r| == 2 <==> WithColon(name, NameBufferSize).Some?
    ensures order == BareFirst ==> r[0] == name
    ensures order == ColonFirst && |r| == 2 ==> r == [":" + name, name]
  {
    var colon := WithColon(name, NameBufferSize);
    var withColon := if colon.Some? then [colon.value] else [];
    if order == ColonFirst then withColon + [name] else [name] + withColon
  }

  /** The first of the names the driver accepts. */
  function FirstAccepted(names: seq<string>, accepts: set<string>): (r: Option<string>)
    ensures r.Some? <==> exists k :: 0 <= k < |names| && names[k] in accepts
    ensures r.Some? ==> r.value in names && r.value in accepts
    ensures |names| > 0 && names[0] in accepts ==> r == Some(names[0])
  {
    if names == [] then None
    else if names[0] in accepts then Some(names[0])
    else FirstAccepted(names[1..], accepts)
  }

  /** Both orders bind whenever either spelling is accepted; they differ only when both are. */
  lemma OrdersAgreeOnSuccess(name: string, accepts: set<string>)
    ensures FirstAccepted(Attempts(name, ColonFirst), accepts).Some? <==>
            FirstAccepted(Attempts(name, BareFirst), accepts).Some?
    ensures WithColon(name, NameBufferSize).Some? && (":" + name) !in accepts ==>
            FirstAccepted(Attempts(name, ColonFirst), accepts) == FirstAccepted(Attempts(name, BareFirst), accepts)
  {
    var c := Attempts(name, ColonFirst);
    var b := Attempts(name, BareFirst);
    if FirstAccepted(c, accepts).Some? {
      var k :| 0 <= k < |c| && c[k] in accepts;
      assert c[k] in b;
      var j :| 0 <= j < |b| && b[j] == c[k];
    }
    if FirstAccepted(b, accepts).Some? {
      var k :| 0 <= k < |b| && b[k] in accepts;
      assert b[k] in c;
      var j :| 0 <= j < |c| && c[j] == b[k];
    }
  }

  // ---------------------------------------------------------------------
  // The scalar bind decision (BindOneByValue_Pending)
  // ---------------------------------------------------------------------

  datatype LobType = BlobType | ClobType

  /** How one value is bound: through a temporary LOB of the given type holding data, or as a plain value. */
  datatype BindAs = LobBind(lobType: LobType, data: seq<byte>) | ValueBind(value: NativeValue)

  /** The bytes a value binds as: a byte array's own bytes, otherwise the bytes of its string form. */
  function BytesOf(v: Value): seq<byte>
  {
    if v.Bytes? then v.data else Rep(Text(v))
  }

  /** The plain value of a short string: INT64 if it reads as a 64-bit integer, DOUBLE if as a double, else its bytes. */
  function PlainValue(v: Value): NativeValue
  {
    if GetWide(v).Some? then Int64Data(GetWide(v).value)
    else if IsDouble(v) then DoubleData(Text(v))
    else BytesData(Rep(Text(v)))
  }

  /**
   * The decision as the code is written: BLOB hint, then byte array, then a
   * NUL byte in the string form, then (CLOB hint or not) more than 4000
   * bytes as CLOB, then INT64, DOUBLE, bytes.
   */
  function ScalarBindAsWritten(name: string, v: Value): BindAs
  {
    if IsBlobHint(name) then LobBind(BlobType, BytesOf(v))
    else if v.Bytes? then LobBind(BlobType, v.data)
    else
      var sv := Rep(Text(v));
      if |sv| > 0 && 0 in sv then LobBind(BlobType, sv)
      else if IsClobHint(name) && |sv| > 0 && |sv| > LobThreshold then LobBind(ClobType, sv)
      else if |sv| > LobThreshold then LobBind(ClobType, sv)
      else ValueBind(PlainValue(v))
  }

  /**
   * The NUL test of the code never succeeds on a string form Tcl builds
   * itself: that form encodes U+0000 as C0 80, so such a string with an
   * embedded NUL is not sent as a BLOB.
   */
  lemma NulTestIsDead(name: string, v: Value)
    ensures !v.Bytes? && !IsBlobHint(name) ==> !ScalarBindAsWritten(name, v).LobBind? || |Rep(Text(v))| > LobThreshold
  {
    RepHasNoZeroByte(Text(v));
  }

  /** A short string with an embedded NUL, under a plain name, is bound as bytes by the code as written. */
  lemma NulStringBoundAsBytes()
    ensures ScalarBindAsWritten("x", Str("a\0b")) == ValueBind(BytesData(Rep("a\0b")))
    ensures ScalarBind("x", Str("a\0b")) == LobBind(BlobType, Rep("a\0b"))
  {
    var s := "a\0b";
    RepHasNoZeroByte(s);
    assert !ContainsFold("x", "blob") by { NoBlobWithoutB("x"); }
    assert !IsClobHint("x") by {
      assert !MatchesAt("x", 0, "clob");
    }
    assert Rep(s) == [97, 0xC0, 0x80, 98] by {
      assert Rep(s) == EncodeChar('a') + Rep(s[1..]);
      assert s[1..] == "\0b";
      assert Rep("\0b") == EncodeChar('\0') + Rep("b");
      assert Rep("b") == EncodeChar('b') + Rep("");
    }
    assert ParseInt(s).None? by {
      assert !IsDigit(s[0]);
    }
    assert '\0' in s by { assert s[1] == '\0'; }
  }

  /**
   * The decision as intended: a string holding U+0000 is sent as a BLOB of
   * its bytes, like a byte array.
   */
  function ScalarBind(name: string, v: Value): BindAs
  {
    if IsBlobHint(name) then LobBind(BlobType, BytesOf(v))
    else if v.Bytes? then LobBind(BlobType, v.data)
    else
      var sv := Rep(Text(v));
      if '\0' in Text(v) then LobBind(BlobType, sv)
      else if |sv| > LobThreshold then LobBind(ClobType, sv)
      else ValueBind(PlainValue(v))
  }

  /**
   * The bind decision, first match wins: a BLOB exactly for a BLOB-hint
   * name, a byte array or a string holding NUL; otherwise a CLOB exactly
   * for more than 4000 bytes; otherwise an INT64 exactly for a 64-bit
   * integer; otherwise a DOUBLE exactly for a double; otherwise bytes.  The
   * LOB carries the value's bytes.
   */
  lemma ScalarBindDecision(name: string, v: Value)
    ensures var r := ScalarBind(name, v);
      var blob := IsBlobHint(name) || v.Bytes? || '\0' in Text(v);
      var clob := !blob && |Rep(Text(v))| > LobThreshold;
      (r.LobBind? && r.lobType == BlobType <==> blob) &&
      (r.LobBind? && r.lobType == ClobType <==> clob) &&
      (r.LobBind? ==> r.data == BytesOf(v)) &&
      (r.ValueBind? && r.value.Int64Data? <==> !blob && !clob && GetWide(v).Some?) &&
      (r.ValueBind? && r.value.DoubleData? <==> !blob && !clob && GetWide(v).None? && IsDouble(v)) &&
      (r.ValueBind? && r.value.BytesData? <==> !blob && !clob && !IsDouble(v)) &&
      (r.ValueBind? ==> InWide(if r.value.Int64Data? then r.value.i else 0))
  {
    if !IsBlobHint(name) && !v.Bytes? && GetWide(v).Some? {
      assert IsDouble(v);
    }
  }

  /** A CLOB hint alone changes nothing: any two names that are not BLOB hints bind a value alike. */
  lemma ClobHintIrrelevant(name1: string, name2: string, v: Value)
    requires !IsBlobHint(name1) && !IsBlobHint(name2)
    ensures ScalarBind(name1, v) == ScalarBind(name2, v)
    ensures ScalarBindAsWritten(name1, v) == ScalarBindAsWritten(name2, v)
  {
  }

  /** The corrected decision differs from the code only for a string holding NUL under a name that is no BLOB hint. */
  lemma CorrectionOnlyForNul(name: string, v: Value)
    ensures ScalarBind(name, v) != ScalarBindAsWritten(name, v) ==>
      !IsBlobHint(name) && !v.Bytes? && '\0' in Text(v)
    ensures !('\0' in Text(v)) ==> ScalarBind(name, v) == ScalarBindAsWritten(name, v)
  {
    RepHasNoZeroByte(Text(v));
  }
}
