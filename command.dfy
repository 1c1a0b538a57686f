/**
 * The console commands of Command.java: their names, the lookup of the
 * command a line of input starts with, and the splitting of the rest of the
 * line into arguments. What each command does when executed is console
 * output and is not part of this model.
 */
module Commands {
  import opened Wrappers
  import opened JavaUtil
  import opened JavaStrings

  /** The constants in declaration order; DisplayField is spelt DIPLAY_FIELD in the source. */
  datatype Command = Help | DisplayField | DisplayHand | PlayCard | Exit {

    function Name(): string {
      match this
      case Help => "help"
      case DisplayField => "field"
      case DisplayHand => "hand"
      case PlayCard => "play"
      case Exit => "exit"
    }

    function UsagePostfix(): string {
      match this
      case PlayCard => "<card index> <target row>"
      case _ => ""
    }

    function Description(): string {
      match this
      case Help => "Displays available commands"
      case DisplayField => "Displays game field"
      case DisplayHand => "Displays your hand"
      case PlayCard => "Plays a card"
      case Exit => "Exits the game"
    }
  }

  /** `Command.values()`. */
  const Values: seq<Command> := [Help, DisplayField, DisplayHand, PlayCard, Exit]

  /** `input.startsWith(c.getName())`. */
  predicate Matches(c: Command, input: string) {
    c.Name() <= input
  }

  /**
   * `forInput(name)`: the first command, in declaration order, whose name
   * the input starts with; none when no name is a prefix of the input.
   */
  method ForInput(name: string) returns (found: Option<Command>)
    ensures found.None? <==> forall k :: 0 <= k < |Values| ==> !Matches(Values[k], name)
    ensures found.Some? ==> exists i :: 0 <= i < |Values| && Values[i] == found.value && Matches(Values[i], name)
                                        && forall k :: 0 <= k < i ==> !Matches(Values[k], name)
  {
    var i := 0;
    while i < |Values|
      invariant 0 <= i <= |Values|
      invariant forall k :: 0 <= k < i ==> !Matches(Values[k], name)
    {
      if Matches(Values[i], name) {
        return Some(Values[i]);
      }
      i := i + 1;
    }
    return None;
  }

  /** Two prefixes of one string are prefixes of each other, one way or the other. */
  lemma PrefixesAreComparable(a: string, b: string, s: string)
    requires a <= s && b <= s
    ensures a <= b || b <= a
  {
    if |a| <= |b| {
      assert a == s[..|a|] && b[..|a|] == s[..|a|];
    } else {
      assert b == s[..|b|] && a[..|b|] == s[..|b|];
    }
  }

  /** No command name is a prefix of another. */
  lemma NamesArePrefixFree()
    ensures forall i, j :: 0 <= i < |Values| && 0 <= j < |Values| && i != j ==> !(Values[i].Name() <= Values[j].Name())
  {
    assert Help.Name()[..2] == "he" && DisplayField.Name()[..2] == "fi" && DisplayHand.Name()[..2] == "ha";
    assert PlayCard.Name()[..2] == "pl" && Exit.Name()[..2] == "ex";
    forall i, j | 0 <= i < |Values| && 0 <= j < |Values| && i != j
      ensures !(Values[i].Name() <= Values[j].Name())
    {
      StartsDiffer(Values[i].Name(), Values[j].Name());
    }
  }

  /** A string whose first two characters are not those of another is no prefix of it. */
  lemma StartsDiffer(a: string, b: string)
    requires |a| >= 2 && |b| >= 2 && a[..2] != b[..2]
    ensures !(a <= b)
  {
    assert a <= b ==> a[..2] == b[..2];
  }

  /** Hence at most one command matches any input, and the search order does not matter. */
  lemma AtMostOneMatch(input: string, i: int, j: int)
    requires 0 <= i < |Values| && 0 <= j < |Values|
    requires Matches(Values[i], input) && Matches(Values[j], input)
    ensures i == j
  {
    NamesArePrefixFree();
    PrefixesAreComparable(Values[i].Name(), Values[j].Name(), input);
  }

  /**
   * `extractArguments(input)`: when the first space is past the start of
   * the line, the whitespace-separated words of what follows it; otherwise
   * no arguments.
   */
  function ExtractArguments(input: string): (args: seq<string>)
    ensures args == [] <==> (' ' !in input || input[0] == ' ')
  {
    var spaceIndex := IndexOf(input, ' ');
    if spaceIndex > 0 then
      ArgumentsOfTail(input[spaceIndex..]);
      Split(Trim(input[spaceIndex..]))
    else []
  }

  /**
   * There are no arguments exactly when the line has no space or starts
   * with one; a space after the name with nothing but blanks behind it
   * gives the single empty argument that `split` makes of an empty string.
   */
  lemma NoArgumentsIff(input: string)
    ensures ExtractArguments(input) == [] <==> (' ' !in input || input[0] == ' ')
    ensures (' ' in input && input[0] != ' ' && Trim(input[IndexOf(input, ' ')..]) == []) ==> ExtractArguments(input) == [""]
  {
    var i := IndexOf(input, ' ');
    assert i > 0 <==> (' ' in input && input[0] != ' ');
    if i > 0 {
      ArgumentsOfTail(input[i..]);
    }
  }

  /** What `split` makes of a trimmed tail: never nothing, and one empty word only when it is blank. */
  lemma ArgumentsOfTail(tail: string)
    ensures Split(Trim(tail)) != []
    ensures Trim(tail) == [] ==> Split(Trim(tail)) == [""]
  {
    var t := Trim(tail);
    if t != [] {
      assert |Split(t)| > 0 by {
        SplitTrimmed(t);
      }
    } else {
      assert !HasWhitespace(t);
    }
  }

  /**
   * When something other than blanks follows the first space, the
   * arguments are nonempty words without whitespace that together hold
   * every non-whitespace character after that space, in order.
   */
  lemma ArgumentsAreWords(input: string)
    requires ' ' in input && input[0] != ' '
    requires Trim(input[IndexOf(input, ' ')..]) != []
    ensures |ExtractArguments(input)| > 0
    ensures forall k :: 0 <= k < |ExtractArguments(input)| ==> IsToken(ExtractArguments(input)[k])
    ensures Concat(ExtractArguments(input)) == NonWhitespace(Trim(input[IndexOf(input, ' ')..]))
  {
    var tail := Trim(input[IndexOf(input, ' ')..]);
    assert ExtractArguments(input) == Split(tail) by {
      assert IndexOf(input, ' ') > 0;
    }
    SplitTrimmed(tail);
  }

  /** The command word before the first space plays no part in the arguments. */
  lemma ArgumentsIgnoreCommandWord(word: string, rest: string)
    requires word != [] && ' ' !in word
    requires rest != [] && rest[0] == ' '
    ensures ExtractArguments(word + rest) == Split(Trim(rest))
  {
    var input := word + rest;
    assert input[|word|] == ' ';
    assert input[..|word|] == word;
    var i := IndexOf(input, ' ');
    assert i == |word|;
    assert input[i..] == rest;
  }

  /**
   * A command word followed by a space and one or more words separated by
   * single spaces gives back exactly those words as its arguments.
   */
  lemma ArgumentsRoundTrip(word: string, args: seq<string>)
    requires word != [] && ' ' !in word
    requires args != [] && AllWords(args)
    ensures ExtractArguments(word + " " + Join(args)) == args
  {
    var joined := Join(args);
    var rest := " " + joined;
    assert word + " " + joined == word + rest;
    assert ExtractArguments(word + rest) == Split(Trim(rest)) by {
      ArgumentsIgnoreCommandWord(word, rest);
    }
    assert Trim(rest) == joined by {
      TrimSpacedJoin(args);
    }
    assert Split(joined) == args by {
      SplitJoin(args);
    }
  }

  /** `extractArguments("play 1 2")` gives the two arguments "1" and "2". */
  lemma PlayExample()
    ensures ExtractArguments("play 1 2") == ["1", "2"]
  {
    var args := ["1", "2"];
    assert IsWord(args[0]) && IsWord(args[1]);
    assert Join(args) == "1 2" by {
      assert args[1..] == ["2"];
    }
    assert "play 1 2" == "play" + " " + Join(args);
    ArgumentsRoundTrip("play", args);
  }
}
