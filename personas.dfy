/**
 * A persona: a name, a gender and the tokens told to it that it has not yet thought
 * about. Thinking answers the pending tokens with one of two fixed replies and forgets
 * them; what a persona says is printed as "name> message".
 */
module Personas {
  import opened Wrappers
  import opened LibC
  import opened Strings
  import opened Lexing

  datatype Gender = GenderNone | GenderFemale | GenderMale

  /** The line say prints for a message. */
  function SayLine(name: CText, message: CText): CText {
    name + "> " + message + "\n"
  }

  /** Some pending token holds the needle, as findPartial finds it (case-sensitive). */
  predicate Mentions(toks: seq<CText>, needle: CText) {
    exists k :: 0 <= k < |toks| && Contains(toks[k], needle)
  }

  /** Whether think takes the pending tokens for a question about the persona's name. */
  predicate AsksName(toks: seq<CText>) {
    Mentions(toks, "name") && Mentions(toks, "?")
  }

  const NameReplyHead: CText := "My name is "

  const MeaningReplyHead: CText := "What does '"

  /** What think says about the pending tokens: nothing when there are none. */
  function Reply(name: CText, toks: seq<CText>): Option<CText> {
    if toks == [] then None
    else if AsksName(toks) then Some(NameReplyHead + name + ".")
    else Some(MeaningReplyHead + toks[0] + "' mean?")
  }

  class Persona {
    /** The text of the String member name. */
    var name: CText
    var gender: Gender
    /** The unprocessed message tokens. */
    var tokens: Lexer
    /** The lines say has printed, oldest first. */
    var output: seq<CText>

    constructor ()
      ensures name == "unknown" && gender == GenderNone && output == []
      ensures fresh(tokens) && tokens.tokens == []
    {
      name := "unknown";
      gender := GenderNone;
      tokens := new Lexer();
      output := [];
    }

    /** setName: the assignment of Strings, which an empty name leaves without effect. */
    method SetName(newName: String)
      requires newName.Valid()
      modifies this
      ensures newName.len == 0 ==> name == old(name)
      ensures newName.len != 0 ==> name == newName.CStr()
      ensures gender == old(gender) && tokens == old(tokens) && output == old(output)
    {
      var s := new String.FromCString(Some(name));
      CStringOfNulFree(name);
      s.SetDataFrom(newName);
      CStringOfNulFree(s.data);
      name := s.CStr();
    }

    method SetGender(newGender: Gender)
      modifies this
      ensures gender == newGender
      ensures name == old(name) && tokens == old(tokens) && output == old(output)
    {
      gender := newGender;
    }

    /**
     * tell: the message, passed by value and so copied up to its terminator, is parsed
     * into the target's pending tokens.
     */
    method Tell(target: Persona, message: String)
      requires message.Valid()
      modifies target.tokens
      ensures target.tokens.tokens == old(target.tokens.tokens) + Tokenize(message.CStr())
    {
      var copy := new String.Copy(message);
      target.tokens.Parse(copy);
    }

    /** say: one line of output. */
    method Say(message: String)
      modifies this
      ensures output == old(output) + [SayLine(name, message.CStr())]
      ensures name == old(name) && gender == old(gender) && tokens == old(tokens)
    {
      output := output + [SayLine(name, message.CStr())];
    }

    /**
     * think: with pending tokens, says the reply and clears them; the test for a question
     * about the name looks for "name" first and for "?" only when it was found.
     */
    method Think()
      modifies this, tokens
      ensures name == old(name) && gender == old(gender) && tokens == old(tokens)
      ensures var r := Reply(name, old(tokens.tokens));
        output == old(output) + (if r.None? then [] else [SayLine(name, r.value)])
      ensures tokens.tokens == []
    {
      if tokens.GetNumTokens() == 0 {
        return;
      }
      var asks := AsksForName(tokens);
      var s := ReplyText(name, tokens, asks);
      Say(s);
      tokens.Clear();
    }
  }

  /** The question test of think: "name" is looked for first, and "?" only when it was found. */
  method AsksForName(tokens: Lexer) returns (asks: bool)
    ensures asks == AsksName(tokens.tokens)
  {
    asks := false;
    var nameNeedle := new String.FromCString(Some("name"));
    CStringOfNulFree(nameNeedle.data);
    var a := tokens.FindPartial(nameNeedle);
    if a != -1 {
      var markNeedle := new String.FromCString(Some("?"));
      CStringOfNulFree(markNeedle.data);
      var b := tokens.FindPartial(markNeedle);
      asks := b != -1;
    }
  }

  /** The reply think builds, by appending to a String. */
  method ReplyText(name: CText, tokens: Lexer, asks: bool) returns (s: String)
    requires tokens.tokens != [] && asks == AsksName(tokens.tokens)
    ensures s.CStr() == Reply(name, tokens.tokens).value
  {
    if asks {
      s := Concat(NameReplyHead, name, ".");
    } else {
      s := Concat(MeaningReplyHead, tokens.GetToken(0), "' mean?");
    }
  }

  /** A String holding a, to which the String b and then the text c are appended. */
  method Concat(a: CText, b: CText, c: CText) returns (s: String)
    ensures s.CStr() == a + b + c
  {
    s := new String.FromCString(Some(a));
    CStringOfNulFree(a);
    var t := new String.FromCString(Some(b));
    CStringOfNulFree(b);
    s.Append(t);
    s.AppendCStr(Some(c));
  }

  /** think says something exactly when tokens are pending. */
  lemma ReplyWhenPending(name: CText, toks: seq<CText>)
    ensures Reply(name, toks).Some? <==> toks != []
  {
  }

  /** The name reply is given exactly for a question about the name: the two replies differ. */
  lemma NameReplyExactly(name: CText, toks: seq<CText>)
    ensures Reply(name, toks) == Some(NameReplyHead + name + ".") <==> toks != [] && AsksName(toks)
  {
    if toks != [] && !AsksName(toks) {
      var r := MeaningReplyHead + toks[0] + "' mean?";
      assert r[0] == 'W';
      assert (NameReplyHead + name + ".")[0] == 'M';
    }
  }

  /** The other reply quotes the first pending token, which can be read back from it. */
  lemma MeaningReplyQuotesFirst(name: CText, toks: seq<CText>)
    requires toks != [] && !AsksName(toks)
    ensures var r := Reply(name, toks).value;
      |r| == |MeaningReplyHead| + |toks[0]| + 7 && r[|MeaningReplyHead|..|r| - 7] == toks[0]
  {
    var r := Reply(name, toks).value;
    assert r == MeaningReplyHead + toks[0] + "' mean?";
  }

  /**
   * A message of words, one mentioning "name" and one "?" (as in "What is your name ?"),
   * told to a persona with nothing pending, is answered with its name.
   */
  lemma NameQuestionGetsName(name: CText, ws: seq<CText>, i: nat, j: nat)
    requires forall k :: 0 <= k < |ws| ==> IsWord(ws[k])
    requires i < |ws| && Contains(ws[i], "name") && j < |ws| && Contains(ws[j], "?")
    ensures Reply(name, Tokenize(Join(ws))) == Some(NameReplyHead + name + ".")
  {
    JoinTokenize(ws);
  }
}
