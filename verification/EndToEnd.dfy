/** From input bytes, however divided into reads, to what the screen shows. */
module EndToEnd {
  import opened Options
  import opened Utf8
  import opened Wrapping
  import opened Screen
  import opened LineEditor
  import opened KeyDecoder
  import opened LineReader
  import opened CursorInvariant
  import opened Painting

  /** The keys of an input, decoded as the brackets of its pastes command. */
  function KeysOf(b: seq<byte>, paste: bool): seq<Rune>
    decreases |b|
  {
    var (key, rest) := BytesToKey(b, paste);
    if key == RUNE_ERROR then [] else [key] + KeysOf(rest, ModeAfter(paste, key))
  }

  /** The reader does nothing but feed the keys to the editor one after the other. */
  lemma {:induction false} PumpFeedsKeys(t: Term, b: seq<byte>, pasted: bool)
    requires CursorOk(t) && Contents(NotEscape, t)
    ensures Pump(t, b, pasted).t == FeedKeys(t, KeysOf(b, t.paste))
    decreases |b|
  {
    hide BytesToKey, HandleKey, Row, Col, Contents, ShowPrompt, FeedKey, OneKey, ModeAfter;
    var (key, rest) := BytesToKey(b, t.paste);
    if key != RUNE_ERROR {
      KeyIsNotEscape(b, t.paste);
      BracketMode(b, t.paste);
      assert KeysOf(b, t.paste)[0] == key && KeysOf(b, t.paste)[1..] == KeysOf(rest, ModeAfter(t.paste, key));
      var u := FeedKey(t, key);
      OneKeyFeeds(t, key, pasted);
      FeedKeyCursor(t, key);
      FeedKeyMode(t, key);
      var (v, p, stop) := OneKey(t, key, pasted);
      match stop
      case NeedInput => PumpFeedsKeys(u, rest, p);
      case Finished(line) => PumpFeedsKeys(u, rest, u.paste);
      case Eof => PumpFeedsKeys(u, rest, u.paste);
    }
  }

  lemma FeedKeyMode(t: Term, key: Rune)
    requires t.InWidth() && t.histIndex >= -1
    ensures FeedKey(t, key).paste == ModeAfter(t.paste, key)
  {
    hide HandleKey;
    HandleKeyMode(t, key);
  }

  /** One key of the reader, with the call that follows if it ends one, is one key fed to the editor. */
  lemma OneKeyFeeds(t: Term, key: Rune, pasted: bool)
    requires CursorOk(t) && Contents(NotEscape, t)
    ensures var (v, p, stop) := OneKey(t, key, pasted);
            FeedKey(t, key) ==
              match stop
              case NeedInput => v
              case Finished(line) => ShowPrompt(Record(v, line))
              case Eof => ShowPrompt(v)
  {
    hide HandleKey, ShowPrompt;
    if !t.paste && key == KEY_CTRL_D && t.Line() == [] {
      EndOfInputPresses(t);
    }
  }

  /** The end-of-input key on an empty line changes nothing, and no second prompt appears. */
  lemma EndOfInputPresses(t: Term)
    requires CursorOk(t) && !t.paste && t.Line() == []
    ensures HandleKey(t, KEY_CTRL_D) == (t, None)
    ensures ShowPrompt(t) == t
  {
    hide Row, Col;
    RowColZero(t.width);
    if t.x == 0 && t.y == 0 {
      RowColInjective(CursorCell(t), 0, t.width);
      assert t.prompt == [];
    }
  }

  /**
   Bytes in, screen out: a new terminal on a blank screen reads well-formed input without U+FFFD or overlong
   escape sequences, whose pastes are glyphs and Enters, divided into reads in any way. When it has consumed the
   input, the bytes it wrote show the prompt and the line as edited by the keys, and nothing below, with the cursor
   in place.
   */
  lemma BytesToScreen(prompt: seq<Rune>, width: nat, row: nat, complete: Completer, input: seq<seq<byte>>)
    requires width > 0 && Only(IsGlyph, prompt)
    requires forall line, pos, key :: complete(line, pos, key).Some? ==>
               Only(IsGlyph, Decode(complete(line, pos, key).value.0))
    requires var b := Flat(input);
             Valid(b) && RUNE_ERROR !in Decode(b) && ShortEscapes(b) && PastesGlyphs(false, KeysOf(b, false))
    ensures var t := RunSession(NewTerm(prompt, width, complete), [], input).t;
            && t == FeedKeys(ShowPrompt(NewTerm(prompt, width, complete)), KeysOf(Flat(input), false))
            && exists top: nat :: Displays(Interp(BlankScreen(width, row), Decode(Encode(t.out))), top, prompt, t)
  {
    hide RunSession, Pump, FeedKeys, PastesGlyphs, KeysOf, ShowPrompt, ShortEscapes, Displays, Interp, Row, Col, Valid, Encode;
    var b, t0 := Flat(input), NewTerm(prompt, width, complete);
    assert [] + b == b;
    ValidIsClean(b);
    SessionIsPump(t0, [], input);
    NewTermStarts(prompt, width, row, complete);
    PumpFeedsKeys(ShowPrompt(t0), b, t0.paste);
    ScreenRefinement(prompt, width, row, complete, KeysOf(b, false));
  }

  lemma NewTermStarts(prompt: seq<Rune>, width: nat, row: nat, complete: Completer)
    requires width > 0 && Only(IsGlyph, prompt)
    requires forall line, pos, key :: complete(line, pos, key).Some? ==>
               Only(IsGlyph, Decode(complete(line, pos, key).value.0))
    ensures var t := ShowPrompt(NewTerm(prompt, width, complete));
            CursorOk(t) && Contents(NotEscape, t) && !t.paste
  {
    hide ShowPrompt, Row, Col;
    var t := NewTerm(prompt, width, complete);
    GlyphScalars(prompt);
    OnlyNothing(NotEscape);
    ShowPromptCursor(t);
    forall line, pos, key | complete(line, pos, key).Some?
      ensures Only(NotEscape, Decode(complete(line, pos, key).value.0))
    {
      GlyphScalars(Decode(complete(line, pos, key).value.0));
    }
  }
}
