/**
 * The animation template expander (RayTracer/Composition/AnimationPreprocessor.cs).
 * A scene text holds placeholders `{start;frames;end}`; the constructor cuts
 * the text into plain blocks and animations, and each frame of the output is
 * the blocks verbatim with every animation replaced by its interpolated value.
 * Number parsing and printing belong to the .NET culture and are parameters.
 */
module Animations {
  import opened Wrappers
  import opened Global
  import Sequences

  /**
   * `Convert.ToSingle`, `Convert.ToInt32` (None for a FormatException) and
   * `float.ToString` with the invariant culture.
   */
  datatype NumberFormat = NumberFormat(
    toSingle: string -> Option<real>,
    toInt32: string -> Option<int>,
    toStr: real -> string)

  /** The exceptions the constructor can throw. */
  datatype ParseError =
    | MissingClosingBracket   // a '{' with no '}' anywhere in the remaining text
    | NegativeLength          // the first '}' lies before the first '{': Substring throws
    | MissingField            // fewer than three ';'-separated fields: the index throws
    | BadNumber               // a field is not a number: the conversion throws

  /** A chunk of the template: verbatim text or an animated number. */
  datatype Chunk =
    | TextBlock(text: string)
    | Animation(start: real, frames: int, end: real)

  /** The parsed template: its chunks in order and the frame count. */
  datatype Preprocessor = Preprocessor(elements: seq<Chunk>, frames: int)

  // ---------------------------------------------------------------------
  // String.IndexOf and String.Split
  // ---------------------------------------------------------------------

  /** `s.IndexOf(c)`: the first position of c, or −1. */
  function IndexOf(s: string, c: char): (r: int)
    ensures -1 <= r < |s|
    ensures r == -1 <==> c !in s
    ensures r >= 0 ==> s[r] == c && c !in s[..r]
  {
    if |s| == 0 then -1
    else if s[0] == c then 0
    else
      var i := IndexOf(s[1..], c);
      assert s[1..][..i + 1] == s[1..i + 2] by { }
      if i == -1 then -1 else i + 1
  }

  /** `s.Split(c)`: the pieces between the occurrences of c, in order. */
  function Split(s: string, c: char): (parts: seq<string>)
    ensures |parts| >= 1
    decreases |s|
  {
    var i := IndexOf(s, c);
    if i == -1 then [s] else [s[..i]] + Split(s[i + 1..], c)
  }

  /** The pieces put back together with c between them. */
  function Join(parts: seq<string>, c: char): string
    requires |parts| >= 1
  {
    if |parts| == 1 then parts[0] else parts[0] + [c] + Join(parts[1..], c)
  }

  /** No piece of a split holds the separator. */
  lemma {:induction false} SplitPieces(s: string, c: char)
    ensures forall i :: 0 <= i < |Split(s, c)| ==> c !in Split(s, c)[i]
    decreases |s|
  {
    var i := IndexOf(s, c);
    if i != -1 {
      SplitPieces(s[i + 1..], c);
    }
  }

  /** Joining the pieces gives the text back. */
  lemma {:induction false} JoinSplit(s: string, c: char)
    ensures Join(Split(s, c), c) == s
    decreases |s|
  {
    var i := IndexOf(s, c);
    if i != -1 {
      var head, rest := s[..i], s[i + 1..];
      var tail := Split(rest, c);
      assert Split(s, c) == [head] + tail;
      JoinSplit(rest, c);
      JoinCons(head, tail, c);
      CutAtSeparator(s, i);
    }
  }

  /** Splitting joined pieces that avoid the separator gives the pieces back. */
  lemma {:induction false} SplitJoin(parts: seq<string>, c: char)
    requires |parts| >= 1 && forall i :: 0 <= i < |parts| ==> c !in parts[i]
    ensures Split(Join(parts, c), c) == parts
    decreases |parts|
  {
    if |parts| > 1 {
      var head, tail := parts[0], parts[1..];
      var rest := Join(tail, c);
      assert parts == [head] + tail;
      JoinCons(head, tail, c);
      assert forall i :: 0 <= i < |tail| ==> c !in tail[i] by {
        forall i | 0 <= i < |tail| ensures c !in tail[i] {
          assert tail[i] == parts[i + 1];
        }
      }
      SplitJoin(tail, c);
      FirstSeparator(head, c, rest);
      AroundSeparator(head, c, rest);
      assert Split(head + [c] + rest, c) == [head] + Split(rest, c);
    } else {
      assert IndexOf(parts[0], c) == -1;
    }
  }

  /** Joining a first piece with more pieces puts the separator after the first. */
  lemma JoinCons(head: string, tail: seq<string>, c: char)
    requires |tail| >= 1
    ensures Join([head] + tail, c) == head + [c] + Join(tail, c)
  {
    assert ([head] + tail)[1..] == tail;
  }

  /** A text is what lies before position i, the character at i, and what lies after. */
  lemma CutAtSeparator(s: string, i: nat)
    requires i < |s|
    ensures s == s[..i] + [s[i]] + s[i + 1..]
  {
  }

  /** The parts around a separator are what lies before and after it. */
  lemma AroundSeparator(a: string, c: char, b: string)
    ensures (a + [c] + b)[..|a|] == a && (a + [c] + b)[|a| + 1..] == b
  {
  }

  /** The first c in a + [c] + b is the one after a, when a holds none. */
  lemma {:induction false} FirstSeparator(a: string, c: char, b: string)
    requires c !in a
    ensures IndexOf(a + [c] + b, c) == |a|
    decreases |a|
  {
    var s := a + [c] + b;
    if |a| > 0 {
      assert s[0] == a[0];
      assert s[1..] == a[1..] + [c] + b;
      FirstSeparator(a[1..], c, b);
    }
  }

  // ---------------------------------------------------------------------
  // Frames
  // ---------------------------------------------------------------------

  /** The animated value: start + (end − start)·frame/frames before the last frame, end from then on. */
  function Value(start: real, frames: int, end: real, frame: int): real
  {
    if frame < frames then start + (end - start) * Div(frame as real, frames as real) else end
  }

  /** `IChunk.ToStr`. */
  function ToStr(ch: Chunk, frame: int, fmt: NumberFormat): string
  {
    match ch
    case TextBlock(text) => text
    case Animation(start, frames, end) => fmt.toStr(Value(start, frames, end, frame))
  }

  /** `GetFrame`: the chunks rendered and concatenated in order. */
  function Render(elements: seq<Chunk>, frame: int, fmt: NumberFormat): string
  {
    if |elements| == 0 then "" else Render(elements[..|elements| - 1], frame, fmt) + ToStr(elements[|elements| - 1], frame, fmt)
  }

  function GetFrame(p: Preprocessor, frame: int, fmt: NumberFormat): string
  {
    Render(p.elements, frame, fmt)
  }

  /**
   * Frame 0 shows start, every frame from `frames` on shows end, and the
   * frames in between interpolate: the value stays between start and end.
   */
  lemma {:induction false} ValueInterpolates(start: real, frames: int, end: real, frame: int)
    ensures frames > 0 ==> Value(start, frames, end, 0) == start
    ensures frame >= frames ==> Value(start, frames, end, frame) == end
    ensures 0 <= frame <= frames && start <= end ==> start <= Value(start, frames, end, frame) <= end
  {
    if 0 <= frame < frames {
      var t := Div(frame as real, frames as real);
      assert t * (frames as real) == frame as real;
      assert 0.0 <= t <= 1.0;
      if start <= end {
        assert 0.0 <= (end - start) * t <= end - start by {
          assert (end - start) * t <= (end - start) * 1.0 by {
            assert (end - start) * (1.0 - t) >= 0.0;
          }
        }
      }
    }
  }

  /** Rendering a concatenation renders the parts one after the other. */
  lemma {:induction false} RenderAppends(a: seq<Chunk>, b: seq<Chunk>, frame: int, fmt: NumberFormat)
    ensures Render(a + b, frame, fmt) == Render(a, frame, fmt) + Render(b, frame, fmt)
    decreases |b|
  {
    if |b| == 0 {
      assert a + b == a;
    } else {
      var n, last := |b| - 1, ToStr(b[|b| - 1], frame, fmt);
      RenderAppends(a, b[..n], frame, fmt);
      assert (a + b)[..|a + b| - 1] == a + b[..n];
      assert (a + b)[|a + b| - 1] == b[n];
      assert Render(a + b, frame, fmt) == Render(a + b[..n], frame, fmt) + last;
      assert Render(b, frame, fmt) == Render(b[..n], frame, fmt) + last;
      Sequences.AppendIsAssociative(Render(a, frame, fmt), Render(b[..n], frame, fmt), last);
    }
  }

  /**
   * A block followed by an animation renders as the block's text verbatim
   * followed by the printed value of the animation at that frame.
   */
  lemma {:induction false} RenderPlaceholder(elements: seq<Chunk>, text: string, start: real, frames: int, end: real,
                                             frame: int, fmt: NumberFormat)
    ensures Render(elements + [TextBlock(text), Animation(start, frames, end)], frame, fmt)
            == Render(elements, frame, fmt) + text + fmt.toStr(Value(start, frames, end, frame))
  {
    var pair := [TextBlock(text), Animation(start, frames, end)];
    RenderAppends(elements, pair, frame, fmt);
    assert pair[..1] == [TextBlock(text)];
    assert pair[..1][..0] == [];
    assert Render(pair[..1], frame, fmt) == text;
    assert Render(pair, frame, fmt) == text + fmt.toStr(Value(start, frames, end, frame));
  }

  // ---------------------------------------------------------------------
  // Parsing
  // ---------------------------------------------------------------------

  /** The fields of a placeholder, read in the order the source reads them. */
  function ReadFields(fields: seq<string>, fmt: NumberFormat): Result<Chunk, ParseError>
  {
    if |fields| < 1 then Err(MissingField)
    else match fmt.toSingle(fields[0])
      case None => Err(BadNumber)
      case Some(start) =>
        if |fields| < 2 then Err(MissingField)
        else match fmt.toInt32(fields[1])
          case None => Err(BadNumber)
          case Some(frames) =>
            if |fields| < 3 then Err(MissingField)
            else match fmt.toSingle(fields[2])
              case None => Err(BadNumber)
              case Some(end) => Ok(Animation(start, frames, end))
  }

  /** What one pass of the constructor's loop finds at the head of the remaining text. */
  datatype Step =
    | NoPlaceholder                                         // no '{' left: the loop ends
    | Failed(error: ParseError)                             // the placeholder throws
    | Placeholder(text: string, anim: Chunk, rest: string)  // text before '{', the fields, text after '}'

  /** One pass of the constructor's loop: the first '{', the first '}', and the fields between. */
  function NextStep(scene: string, fmt: NumberFormat): (st: Step)
    ensures st.Placeholder? ==> |st.rest| < |scene|
  {
    var pos := IndexOf(scene, '{');
    if pos == -1 then NoPlaceholder
    else
      var end := IndexOf(scene, '}');
      if end == -1 then Failed(MissingClosingBracket)
      else if end < pos then Failed(NegativeLength)
      else ReadPlaceholder(scene, pos, end, fmt)
  }

  /** The placeholder whose braces are at pos and end, read. */
  function ReadPlaceholder(scene: string, pos: nat, end: nat, fmt: NumberFormat): (st: Step)
    requires pos < end < |scene|
    ensures st.Placeholder? ==> |st.rest| < |scene|
  {
    var anim := ReadFields(Split(scene[pos + 1..end], ';'), fmt);
    if anim.Err? then Failed(anim.error)
    else Placeholder(scene[..pos], anim.value, scene[end + 1..])
  }

  /**
   * One pass of the loop stops exactly when no '{' is left and throws
   * "Missing closing bracket" exactly when a '{' but no '}' is left; a
   * placeholder cuts the text at its first '{' and its first '}'.
   */
  lemma NextStepFindsFirstBraces(scene: string, fmt: NumberFormat)
    ensures NextStep(scene, fmt).NoPlaceholder? <==> '{' !in scene
    ensures NextStep(scene, fmt) == Failed(MissingClosingBracket) <==> '{' in scene && '}' !in scene
    ensures var st := NextStep(scene, fmt);
            st.Placeholder? ==>
              var pos := |st.text|;
              var end := |scene| - |st.rest| - 1;
              pos < end && scene[..pos] == st.text && scene[pos] == '{' && '{' !in st.text
              && scene[end] == '}' && '}' !in scene[..end] && scene[end + 1..] == st.rest
  {
    var pos := IndexOf(scene, '{');
    var end := IndexOf(scene, '}');
    if pos == -1 {
      assert NextStep(scene, fmt) == NoPlaceholder;
    } else if end == -1 {
      assert NextStep(scene, fmt) == Failed(MissingClosingBracket);
    } else if end < pos {
      assert NextStep(scene, fmt) == Failed(NegativeLength);
    } else {
      assert NextStep(scene, fmt) == ReadPlaceholder(scene, pos, end, fmt);
      ReadPlaceholderCuts(scene, pos, end, fmt);
    }
  }

  lemma ReadPlaceholderCuts(scene: string, pos: nat, end: nat, fmt: NumberFormat)
    requires pos < end < |scene|
    ensures var st := ReadPlaceholder(scene, pos, end, fmt);
            st != Failed(MissingClosingBracket) && !st.NoPlaceholder?
            && (st.Placeholder? ==> st.text == scene[..pos] && st.rest == scene[end + 1..])
  {
  }

  /**
   * The constructor's loop from a remaining text, the chunks so far and the
   * current frame count.
   */
  function ParseFrom(scene: string, fmt: NumberFormat, elements: seq<Chunk>, frames: int): Result<Preprocessor, ParseError>
    decreases |scene|
  {
    match NextStep(scene, fmt)
    case NoPlaceholder =>
      Ok(Preprocessor(if scene != "" then elements + [TextBlock(scene)] else elements, frames))
    case Failed(error) => Err(error)
    case Placeholder(text, anim, rest) => ParseFrom(rest, fmt, elements + [TextBlock(text), anim], anim.frames)
  }

  /** `new AnimationPreprocessor(scene)`: no chunk yet, one frame. */
  function Parse(scene: string, fmt: NumberFormat): Result<Preprocessor, ParseError>
  {
    ParseFrom(scene, fmt, [], 1)
  }

  /** A text without '{' is one block (none if empty), has one frame and renders as itself in every frame. */
  lemma {:induction false} PlainTextIsUnchanged(scene: string, fmt: NumberFormat, frame: int)
    requires '{' !in scene
    ensures Parse(scene, fmt).Ok?
    ensures Parse(scene, fmt).value.frames == 1
    ensures GetFrame(Parse(scene, fmt).value, frame, fmt) == scene
  {
    assert IndexOf(scene, '{') == -1;
    var p := Parse(scene, fmt).value;
    if scene != "" {
      assert p.elements == [TextBlock(scene)];
      assert p.elements[..0] == [];
      assert Render(p.elements, frame, fmt) == Render([], frame, fmt) + scene;
    } else {
      assert p.elements == [];
    }
  }

  /** A '{' without any '}' throws; a first '}' before the first '{' throws too. */
  lemma {:induction false} BracketErrors(scene: string, fmt: NumberFormat, elements: seq<Chunk>, frames: int)
    ensures '{' in scene && '}' !in scene ==> ParseFrom(scene, fmt, elements, frames) == Err(MissingClosingBracket)
    ensures '{' in scene && '}' in scene && IndexOf(scene, '}') < IndexOf(scene, '{') ==>
              ParseFrom(scene, fmt, elements, frames) == Err(NegativeLength)
  {
  }

  /**
   * One placeholder: text before a '{' becomes a block, the fields between
   * the braces an animation, and parsing resumes right after the '}', with
   * the frame count of that animation.
   */
  lemma {:induction false} ParseStep(prefix: string, body: string, rest: string, fmt: NumberFormat,
                                     elements: seq<Chunk>, frames: int)
    requires '{' !in prefix && '}' !in prefix && '}' !in body
    requires ReadFields(Split(body, ';'), fmt).Ok?
    ensures var anim := ReadFields(Split(body, ';'), fmt).value;
            ParseFrom(prefix + ['{'] + body + ['}'] + rest, fmt, elements, frames)
              == ParseFrom(rest, fmt, elements + [TextBlock(prefix), anim], anim.frames)
  {
    var tail := body + ['}'] + rest;
    var head := prefix + ['{'] + body;
    var scene := prefix + ['{'] + body + ['}'] + rest;
    Sequences.AppendIsAssociative(prefix + ['{'], body, ['}'] + rest);
    Sequences.AppendIsAssociative(prefix, ['{'], body + (['}'] + rest));
    Sequences.AppendIsAssociative(body, ['}'], rest);
    assert scene == prefix + ['{'] + tail;
    FirstSeparator(prefix, '{', tail);
    assert '}' !in head;
    FirstSeparator(head, '}', rest);
    var pos, end := |prefix|, |prefix| + 1 + |body|;
    assert scene[pos + 1..end] == body;
    assert scene[..pos] == prefix;
    assert scene[end + 1..] == rest;
    ParseFromPlaceholder(scene, pos, end, fmt, elements, frames);
  }

  /** The constructor's loop at a placeholder whose braces are at pos and end. */
  lemma ParseFromPlaceholder(scene: string, pos: int, end: int, fmt: NumberFormat, elements: seq<Chunk>, frames: int)
    requires IndexOf(scene, '{') == pos && 0 <= pos
    requires IndexOf(scene, '}') == end && pos <= end
    requires ReadFields(Split(scene[pos + 1..end], ';'), fmt).Ok?
    ensures var anim := ReadFields(Split(scene[pos + 1..end], ';'), fmt).value;
            ParseFrom(scene, fmt, elements, frames)
              == ParseFrom(scene[end + 1..], fmt, elements + [TextBlock(scene[..pos]), anim], anim.frames)
  {
    var anim := ReadFields(Split(scene[pos + 1..end], ';'), fmt).value;
    assert NextStep(scene, fmt) == ReadPlaceholder(scene, pos, end, fmt);
    assert ReadPlaceholder(scene, pos, end, fmt) == Placeholder(scene[..pos], anim, scene[end + 1..]);
    ParseFromPlaceholderStep(scene, fmt, elements, frames, scene[..pos], anim, scene[end + 1..]);
  }

  lemma ParseFromPlaceholderStep(scene: string, fmt: NumberFormat, elements: seq<Chunk>, frames: int,
                                 text: string, anim: Chunk, rest: string)
    requires NextStep(scene, fmt) == Placeholder(text, anim, rest)
    ensures ParseFrom(scene, fmt, elements, frames) == ParseFrom(rest, fmt, elements + [TextBlock(text), anim], anim.frames)
  {
  }

  /** The frames of the last animation among the chunks, or `default` if there is none. */
  function LastFrames(elements: seq<Chunk>, default: int): int
  {
    if |elements| == 0 then default
    else if elements[|elements| - 1].Animation? then elements[|elements| - 1].frames
    else LastFrames(elements[..|elements| - 1], default)
  }

  /**
   * Parsing only appends to the chunks, and `Frames` ends as the frame
   * count of the last placeholder (1 without any): `Math.Max(frames,
   * frames)` keeps no maximum.
   */
  lemma {:induction false} FramesOfLastPlaceholder(scene: string, fmt: NumberFormat, elements: seq<Chunk>, frames: int)
    requires frames == LastFrames(elements, 1)
    ensures Extends(ParseFrom(scene, fmt, elements, frames), elements)
    decreases |scene|
  {
    var pos := IndexOf(scene, '{');
    if pos == -1 {
      ParseFromPlain(scene, fmt, elements, frames);
    } else {
      var end := IndexOf(scene, '}');
      if end != -1 && end >= pos {
        var r := ReadFields(Split(scene[pos + 1..end], ';'), fmt);
        if r.Ok? {
          var e := elements + [TextBlock(scene[..pos]), r.value];
          LastFramesOfPlaceholder(elements, TextBlock(scene[..pos]), r.value);
          FramesOfLastPlaceholder(scene[end + 1..], fmt, e, r.value.frames);
          PlaceholderExtends(scene, pos, end, fmt, elements, frames);
          return;
        }
      }
      ParseFromFails(scene, fmt, elements, frames);
    }
  }

  /** The step over one placeholder keeps what the rest of the parse keeps. */
  lemma PlaceholderExtends(scene: string, pos: int, end: int, fmt: NumberFormat, elements: seq<Chunk>, frames: int)
    requires IndexOf(scene, '{') == pos && 0 <= pos
    requires IndexOf(scene, '}') == end && pos <= end
    requires ReadFields(Split(scene[pos + 1..end], ';'), fmt).Ok?
    requires var anim := ReadFields(Split(scene[pos + 1..end], ';'), fmt).value;
             var e := elements + [TextBlock(scene[..pos]), anim];
             Extends(ParseFrom(scene[end + 1..], fmt, e, anim.frames), e)
    ensures Extends(ParseFrom(scene, fmt, elements, frames), elements)
  {
    var anim := ReadFields(Split(scene[pos + 1..end], ';'), fmt).value;
    var e := elements + [TextBlock(scene[..pos]), anim];
    ParseFromPlaceholder(scene, pos, end, fmt, elements, frames);
    ExtendsTransitive(ParseFrom(scene[end + 1..], fmt, e, anim.frames), e, elements);
  }

  lemma LastFramesOfPlaceholder(elements: seq<Chunk>, text: Chunk, anim: Chunk)
    requires anim.Animation?
    ensures LastFrames(elements + [text, anim], 1) == anim.frames
  {
  }

  /** A placeholder that is unclosed, reversed or unreadable makes the parse fail. */
  lemma ParseFromFails(scene: string, fmt: NumberFormat, elements: seq<Chunk>, frames: int)
    requires IndexOf(scene, '{') != -1
    requires var pos, end := IndexOf(scene, '{'), IndexOf(scene, '}');
             end == -1 || end < pos || ReadFields(Split(scene[pos + 1..end], ';'), fmt).Err?
    ensures ParseFrom(scene, fmt, elements, frames).Err?
  {
  }

  /**
   * A successful parse keeps the given chunks as a prefix, and its frame
   * count is that of its last animation.
   */
  ghost predicate Extends(r: Result<Preprocessor, ParseError>, elements: seq<Chunk>)
  {
    r.Ok? ==>
      && |r.value.elements| >= |elements| && r.value.elements[..|elements|] == elements
      && r.value.frames == LastFrames(r.value.elements, 1)
  }

  lemma ExtendsTransitive(r: Result<Preprocessor, ParseError>, e: seq<Chunk>, elements: seq<Chunk>)
    requires Extends(r, e)
    requires |e| >= |elements| && e[..|elements|] == elements
    ensures Extends(r, elements)
  {
    if r.Ok? {
      assert r.value.elements[..|elements|] == r.value.elements[..|e|][..|elements|];
    }
  }

  /** Without a '{' the loop ends: the rest of the text, if any, becomes a last block. */
  lemma ParseFromPlain(scene: string, fmt: NumberFormat, elements: seq<Chunk>, frames: int)
    requires IndexOf(scene, '{') == -1
    requires frames == LastFrames(elements, 1)
    ensures ParseFrom(scene, fmt, elements, frames).Ok?
    ensures Extends(ParseFrom(scene, fmt, elements, frames), elements)
  {
    if scene != "" {
      var e := elements + [TextBlock(scene)];
      assert e[..|e| - 1] == elements;
      assert e[..|elements|] == elements;
    } else {
      assert elements[..|elements|] == elements;
    }
  }

  /** The parsed template as the source's loop builds it. */
  method Preprocess(scene0: string, fmt: NumberFormat) returns (r: Result<Preprocessor, ParseError>)
    ensures r == Parse(scene0, fmt)
  {
    var elements: seq<Chunk> := [];
    var frames := 1;
    var scene := scene0;
    while true
      invariant Parse(scene0, fmt) == ParseFrom(scene, fmt, elements, frames)
      decreases |scene|
    {
      var pos := IndexOf(scene, '{');
      if pos == -1 {
        assert NextStep(scene, fmt) == NoPlaceholder;
        break;
      }
      var end := IndexOf(scene, '}');
      if end == -1 {
        assert NextStep(scene, fmt) == Failed(MissingClosingBracket);
        return Err(MissingClosingBracket);
      }
      if end < pos {
        assert NextStep(scene, fmt) == Failed(NegativeLength);
        return Err(NegativeLength);
      }
      var anim := ReadAnimation(Split(scene[pos + 1..end], ';'), fmt);
      if anim.Err? {
        assert NextStep(scene, fmt) == ReadPlaceholder(scene, pos, end, fmt);
        return Err(anim.error);
      }
      ParseFromPlaceholder(scene, pos, end, fmt, elements, frames);
      frames := anim.value.frames;
      elements := elements + [TextBlock(scene[..pos]), anim.value];
      scene := scene[end + 1..];
    }
    if scene != "" {
      elements := elements + [TextBlock(scene)];
    }
    r := Ok(Preprocessor(elements, frames));
  }

  /** The three conversions of the loop body, each throwing when its field is missing or unreadable. */
  method ReadAnimation(animTxt: seq<string>, fmt: NumberFormat) returns (r: Result<Chunk, ParseError>)
    ensures r == ReadFields(animTxt, fmt)
  {
    if |animTxt| < 1 {
      return Err(MissingField);
    }
    var animStart := fmt.toSingle(animTxt[0]);
    if animStart.None? {
      return Err(BadNumber);
    }
    if |animTxt| < 2 {
      return Err(MissingField);
    }
    var animFrames := fmt.toInt32(animTxt[1]);
    if animFrames.None? {
      return Err(BadNumber);
    }
    if |animTxt| < 3 {
      return Err(MissingField);
    }
    var animEnd := fmt.toSingle(animTxt[2]);
    if animEnd.None? {
      return Err(BadNumber);
    }
    r := Ok(Animation(animStart.value, animFrames.value, animEnd.value));
  }
}
