/** The main results about the JSON reader. */
module JsonTheorems {
  import opened Results
  import opened Ascii
  import opened Bytes
  import opened Decimals
  import opened Utf8
  import opened JsonGrammar
  import opened JsonReader
  import JsonComplete
  import JsonSound
  import JsonUtf8

  // ---------------------------------------------------------------- acceptance is exactly the grammar

  /** `parse` returns `v` exactly when the input is a text within the limits that denotes `v`. */
  lemma ParseExact(input: bytes, env: Env, v: Value)
    ensures Parse(input, env) == Ok(v) <==> Means(input, env, v)
  {
    hide *;
    if Parse(input, env) == Ok(v) {
      ParseSound(input, env, v);
    }
    if Means(input, env, v) {
      var before, t, after := MeansTree(input, env, v);
      ParseComplete(input, env, before, t, after);
    }
  }

  lemma MeansTree(input: bytes, env: Env, v: Value) returns (before: bytes, t: Tree, after: bytes)
    requires Means(input, env, v)
    ensures |input| <= env.maximumBytes && Valid(input)
    ensures Writes(input, env, before, t, after) && TreeOk(t, env) && Denote(t, env) == v
  {
    before, t, after :| Writes(input, env, before, t, after) && Denote(t, env) == v;
  }

  /** A text has at most one meaning, however it is taken apart. */
  lemma Unambiguous(input: bytes, env: Env, v: Value, w: Value)
    requires Means(input, env, v) && Means(input, env, w)
    ensures v == w
  {
    ParseExact(input, env, v);
    ParseExact(input, env, w);
  }

  lemma ParseSteps(input: bytes, env: Env)
    requires |input| <= env.maximumBytes && input != [] && Valid(input)
    ensures var r := ReadValue(input, 0, 0, 0, env);
            Parse(input, env) == (if r.Failed? then Err(r.error)
                                  else if SkipBlank(input, r.pos) != |input| then Err(InvalidJson)
                                  else Ok(r.value))
  {
    hide ReadValue, SkipBlank, Valid;
  }

  lemma ParseOk(input: bytes, env: Env, v: Value)
    requires Parse(input, env) == Ok(v)
    ensures |input| <= env.maximumBytes && input != [] && Valid(input)
  {
    hide ReadValue, SkipBlank, Valid;
  }

  lemma ParseSound(input: bytes, env: Env, v: Value)
    requires Parse(input, env) == Ok(v)
    ensures Means(input, env, v)
  {
    hide *;
    ParseOk(input, env, v);
    ParseSteps(input, env);
    var r := ReadValue(input, 0, 0, 0, env);
    var before, t := JsonSound.SoundValue(input, 0, 0, 0, env);
    MeansFound(input, env, r, before, t);
  }

  lemma MeansFound(input: bytes, env: Env, r: Read<Value>, before: bytes, t: Tree)
    requires |input| <= env.maximumBytes && Valid(input) && JsonSound.Found(input, 0, 0, 0, env, r, before, t)
    requires r.pos <= |input| && SkipBlank(input, r.pos) == |input|
    ensures Means(input, env, r.value)
  {
    hide Valid, WriteTree, TreeOk, StringsFit, Denote, Depth, Size, SkipBlank, AllBlank;
    var after := input[r.pos..];
    assert input[r.pos..SkipBlank(input, r.pos)] == after;
    assert input == (before + WriteTree(t)) + after;
    assert Writes(input, env, before, t, after);
  }

  lemma ParseComplete(input: bytes, env: Env, before: bytes, t: Tree, after: bytes)
    requires |input| <= env.maximumBytes && Valid(input) && Writes(input, env, before, t, after)
    ensures TreeOk(t, env) && Parse(input, env) == Ok(Denote(t, env))
  {
    hide *;
    WritesParts(input, env, before, t, after);
    var w := before + WriteTree(t);
    TextUtf8(input, env, before, t, after);
    AtTextParts(input, w, after);
    TextEnds(input, |w|, after, t);
    JsonComplete.ReadsValue(input, 0, 0, 0, env, before, t);
    SkipsRest(input, |w|, after);
    ParseSteps(input, env);
  }

  lemma WritesParts(input: bytes, env: Env, before: bytes, t: Tree, after: bytes)
    requires Writes(input, env, before, t, after)
    ensures input == before + WriteTree(t) + after && AllBlank(before) && AllBlank(after)
    ensures TreeOk(t, env) && StringsFit(t, env) && Depth(t) <= env.maximumDepth && Size(t) <= env.maximumValues
    ensures input != []
  {
    JsonComplete.FirstOctet(t, env);
  }

  lemma AtTextParts(input: bytes, w: bytes, after: bytes)
    requires input == w + after
    ensures At(input, 0, w) && At(input, |w|, after)
  {
  }

  lemma TextEnds(input: bytes, p: nat, after: bytes, t: Tree)
    requires At(input, p, after) && p + |after| == |input| && AllBlank(after)
    ensures JsonComplete.Ends(input, p, t)
  {
    if after != [] {
      AtIndex(input, p, after, 0);
    }
  }

  lemma SkipsRest(input: bytes, p: nat, after: bytes)
    requires At(input, p, after) && p + |after| == |input| && AllBlank(after)
    ensures SkipBlank(input, p) == |input|
  {
    JsonComplete.SkipsBlank(input, p, after);
  }

  lemma TextUtf8(input: bytes, env: Env, before: bytes, t: Tree, after: bytes)
    requires Valid(input) && input == before + WriteTree(t) + after && AllBlank(before) && AllBlank(after)
    requires TreeOk(t, env)
    ensures AllUtf8(t)
  {
    hide Valid, WriteTree, TreeOk, AllUtf8;
    assert input == before + (WriteTree(t) + after);
    JsonUtf8.AfterAscii(before, WriteTree(t) + after);
    JsonUtf8.BlankAscii(after, []);
    assert after + [] == after;
    JsonUtf8.Cut(WriteTree(t), after);
    JsonUtf8.TreeValid(t, env);
  }

  // ---------------------------------------------------------------- decoded strings

  /** All strings and keys inside a value are valid UTF-8. */
  ghost predicate ValueUtf8(v: Value) {
    match v
    case Text(text) => Valid(text)
    case Array(items) => forall i :: 0 <= i < |items| ==> ValueUtf8(items[i])
    case Object(members) => forall k :: k in members ==> Valid(k) && ValueUtf8(members[k])
    case _ => true
  }

  lemma DenotesUtf8(t: Tree, env: Env)
    requires TreeOk(t, env) && AllUtf8(t)
    ensures ValueUtf8(Denote(t, env))
    decreases t
  {
    hide Valid, WriteLexeme, LexemeOk, NumberInRange, PiecesBytes, AllBlank, IntegerOf;
    match t {
      case ArrayTree(_, items) => DenotesUtf8Items(items, env);
      case ObjectTree(_, members) => DenotesUtf8Members(members, env);
      case _ =>
    }
  }

  lemma DenotesUtf8Items(items: Items, env: Env)
    requires ItemsOk(items, env) && ItemsUtf8(items)
    ensures forall i :: 0 <= i < |DenoteItems(items, env)| ==> ValueUtf8(DenoteItems(items, env)[i])
    decreases items
  {
    hide ValueUtf8, TreeOk, AllUtf8, Denote, AllBlank;
    if items.Item? {
      DenotesUtf8(items.value, env);
      DenotesUtf8Items(items.rest, env);
    }
  }

  lemma DenotesUtf8Members(members: Members, env: Env)
    requires MembersOk(members, env) && MembersUtf8(members)
    ensures var m := DenoteMembers(members, env); forall k :: k in m ==> Valid(k) && ValueUtf8(m[k])
    decreases members
  {
    hide ValueUtf8, TreeOk, AllUtf8, Denote, AllBlank, Valid, PiecesOk, PiecesBytes;
    if members.Member? {
      DenotesUtf8(members.value, env);
      DenotesUtf8Members(members.rest, env);
    }
  }

  /**
    Whatever `parse` returns holds only valid UTF-8 strings and keys; this follows from the input alone being valid.
   */
  lemma MeaningUtf8(input: bytes, env: Env, v: Value)
    requires Means(input, env, v)
    ensures ValueUtf8(v)
  {
    hide *;
    var before, t, after := MeansTree(input, env, v);
    WritesParts(input, env, before, t, after);
    TextUtf8(input, env, before, t, after);
    DenotesUtf8(t, env);
  }

  // ---------------------------------------------------------------- the second UTF-8 check never decides

  /** `ReadChars` without the check that the decoded string is UTF-8. */
  function ReadCharsUnchecked(s: bytes, p: nat, output: bytes, limit: nat): Read<bytes>
    requires p <= |s|
    decreases |s| - p
  {
    if p >= |s| then Failed(InvalidJson)
    else
      var c := s[p];
      if c == QUOTE then
        if |output| > limit then Failed(PayloadTooLarge) else Got(output, p + 1, 0)
      else if c < 0x20 then Failed(InvalidJson)
      else if c != BACKSLASH then ReadCharsUnchecked(s, p + 1, output + [c], limit)
      else
        match ReadEscape(s, p + 1)
        case Failed(e) => Failed(e)
        case Got(more, q, _) =>
          if |output + more| > limit then Failed(PayloadTooLarge) else ReadCharsUnchecked(s, q, output + more, limit)
  }

  /** The scanner is in the same state after the decoded octets as after the source octets. */
  lemma {:induction false} CheckRedundant(s: bytes, p: nat, output: bytes, limit: nat)
    requires p <= |s| && Run(Run(Ready, output), s[p..]) == Ready
    ensures ReadChars(s, p, output, limit) == ReadCharsUnchecked(s, p, output, limit)
    decreases |s| - p
  {
    hide Next, Lead, ReadEscape;
    if p < |s| {
      if s[p] == QUOTE {
        assert [] + [QUOTE] + s[p + 1..] == s[p..];
        AsciiCut(Run(Ready, output), [], QUOTE, s[p + 1..]);
      } else if s[p] >= 0x20 && s[p] != BACKSLASH {
        RawKeeps(s, p, output);
        CheckRedundant(s, p + 1, output + [s[p]], limit);
      } else if s[p] == BACKSLASH && ReadEscape(s, p + 1).Got? {
        EscapeKeeps(s, p, output);
        var r := ReadEscape(s, p + 1);
        CheckRedundant(s, r.pos, output + r.value, limit);
      }
    }
  }

  lemma RawKeeps(s: bytes, p: nat, output: bytes)
    requires p < |s|
    ensures Run(Run(Ready, output + [s[p]]), s[p + 1..]) == Run(Run(Ready, output), s[p..])
  {
    hide Run;
    RunConcat(Ready, output, [s[p]]);
    assert s[p..] == [s[p]] + s[p + 1..];
    RunConcat(Run(Ready, output), [s[p]], s[p + 1..]);
  }

  lemma EscapeKeeps(s: bytes, p: nat, output: bytes)
    requires p < |s| && s[p] == BACKSLASH && ReadEscape(s, p + 1).Got?
    requires Run(Run(Ready, output), s[p..]) == Ready
    ensures var r := ReadEscape(s, p + 1); Run(Run(Ready, output + r.value), s[r.pos..]) == Ready
  {
    hide Run, ReadEscape, WritePiece, PieceBytes, At;
    var r := ReadEscape(s, p + 1);
    var piece := JsonSound.SoundEscape(s, p);
    AtFits(s, p, WritePiece(piece));
    var st, tail := Run(Ready, output), s[r.pos..];
    assert s[p..] == WritePiece(piece) + tail;
    RunConcat(st, WritePiece(piece), tail);
    BadStays(tail);
    JsonUtf8.PieceRuns(st, piece);
    RunConcat(Ready, output, r.value);
  }

  /** In valid UTF-8 input, wherever a string starts, checking the decoded string again never changes the outcome. */
  lemma SecondCheckNeverDecides(s: bytes, p: nat, limit: nat)
    requires Valid(s) && p < |s| && s[p] == QUOTE
    ensures ReadString(s, p, limit) == ReadCharsUnchecked(s, p + 1, [], limit)
  {
    assert s == s[..p] + [QUOTE] + s[p + 1..];
    ValidCut(s[..p], QUOTE, s[p + 1..]);
    CheckRedundant(s, p + 1, [], limit);
  }
}
