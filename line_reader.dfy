/**
 * The line reader: characters are taken one at a time from standard input
 * into a heap buffer that starts at LSH_RL_BUFSIZE characters and grows by the
 * same amount whenever it fills, until a newline (stored as '\0') or end of
 * input (the process exits with success).
 *
 * Standard input is the sequence `input` read through a cursor; its end is EOF.
 */
module LineReader {
  import opened CString

  /** LSH_RL_BUFSIZE: the initial capacity and the growth step of the line buffer. */
  const ReadBufSize: nat := 1024

  /** What one call of the reader makes of the remaining input. */
  datatype LineResult =
    | EndOfInput                               // EOF before any newline: exit(EXIT_SUCCESS)
    | Line(text: seq<char>, rest: seq<char>)   // the line without its newline, and what follows it

  /** The reader's meaning on the remaining input: the characters before the first newline. */
  function NextLine(input: seq<char>): (r: LineResult)
    ensures r.Line? ==> |r.rest| < |input|
    decreases |input|
  {
    if input == [] then EndOfInput
    else if input[0] == '\n' then Line([], input[1..])
    else
      match NextLine(input[1..])
      case EndOfInput => EndOfInput
      case Line(t, rest) => Line([input[0]] + t, rest)
  }

  /** A line is read exactly when the input is that line, a newline, and the rest. */
  lemma {:induction false} NextLineIsLine(input: seq<char>, t: seq<char>, rest: seq<char>)
    ensures NextLine(input) == Line(t, rest) <==> (input == t + ['\n'] + rest && '\n' !in t)
  {
    if input == [] {
    } else if input[0] == '\n' {
      if input == t + ['\n'] + rest && '\n' !in t {
        assert t == [];
      }
    } else {
      if t != [] {
        NextLineIsLine(input[1..], t[1..], rest);
        if input == t + ['\n'] + rest {
          assert input[1..] == t[1..] + ['\n'] + rest;
        }
        if input[1..] == t[1..] + ['\n'] + rest && input[0] == t[0] {
          assert input == t + ['\n'] + rest;
        }
        assert t == [t[0]] + t[1..];
      } else {
        assert input != t + ['\n'] + rest;
        match NextLine(input[1..])
        case EndOfInput =>
        case Line(t', rest') =>
      }
    }
  }

  /** The reader reaches EOF exactly when no newline remains. */
  lemma {:induction false} NextLineIsEnd(input: seq<char>)
    ensures NextLine(input) == EndOfInput <==> '\n' !in input
  {
    if input != [] && input[0] != '\n' {
      NextLineIsEnd(input[1..]);
      assert input == [input[0]] + input[1..];
    }
  }

  /** The capacity is a multiple of the growth step and the least one that exceeds the count. */
  ghost predicate CapacityFor(capacity: nat, count: nat, step: nat)
    requires step > 0
  {
    capacity % step == 0 && count < capacity <= count + step
  }

  /** realloc to a larger size: a new buffer whose first characters are the old buffer's. */
  method GrowChars(buffer: array<char>, size: nat) returns (grown: array<char>)
    requires buffer.Length <= size
    ensures fresh(grown)
    ensures grown.Length == size
    ensures grown[..buffer.Length] == buffer[..]
  {
    grown := new char[size];
    forall k | 0 <= k < buffer.Length {
      grown[k] := buffer[k];
    }
  }

  /**
   * lsh_read_line (the branch that does not use getline). Reading starts at
   * `at` in `input`. When `eof` the process exits with success and the
   * partial line is discarded; otherwise `buffer` holds the line followed by
   * '\0' at index `len`, and reading resumes at `next`. Each `char` of
   * `input` stands for one byte (0..255) that getchar() returns; EOF is the
   * end of the sequence.
   */
  method ReadLine(input: seq<char>, at: nat) returns (eof: bool, buffer: array<char>, len: nat, next: nat)
    requires at <= |input|
    ensures fresh(buffer)
    ensures eof <==> NextLine(input[at..]) == EndOfInput
    ensures !eof ==> len < buffer.Length && buffer[len] == Nul
    ensures !eof ==> buffer[..len] == NextLine(input[at..]).text
    ensures !eof ==> at < next <= |input| && input[next..] == NextLine(input[at..]).rest
    ensures !eof ==> CapacityFor(buffer.Length, len, ReadBufSize)
  {
    var bufsize := ReadBufSize;
    var position := 0;
    buffer := new char[bufsize];
    len, next := 0, 0;
    while true
      invariant at + position <= |input|
      invariant buffer.Length == bufsize
      invariant CapacityFor(bufsize, position, ReadBufSize)
      invariant buffer[..position] == input[at..at + position]
      invariant '\n' !in input[at..at + position]
      invariant fresh(buffer)
      decreases |input| - (at + position)
    {
      if at + position == |input| {
        // getchar() returned EOF
        assert input[at..] == input[at..at + position];
        NextLineIsEnd(input[at..]);
        eof := true;
        return;
      }
      var c := input[at + position];
      if c == '\n' {
        buffer[position] := Nul;
        eof, len, next := false, position, at + position + 1;
        assert buffer[..len] == input[at..at + position];
        assert input[at..] == input[at..at + position] + ['\n'] + input[next..];
        NextLineIsLine(input[at..], input[at..at + position], input[next..]);
        NextLineIsEnd(input[at..]);
        return;
      }
      buffer[position] := c;
      assert input[at..at + position + 1] == input[at..at + position] + [c];
      position := position + 1;
      if position >= bufsize {
        bufsize := bufsize + ReadBufSize;
        buffer := GrowChars(buffer, bufsize);
      }
    }
  }
}
