/** Pattern trees of LPeg without grammars and run-time captures, and what they mean. */
module PegTree {

  type Byte = b: int | 0 <= b < 256

  type Charset = set<Byte>

  type Subject = seq<Byte>

  const FULLSET: Charset := set b: Byte | 0 <= b < 256

  /** The longest look-behind: 'n' is kept in one byte of the instruction. */
  const MAXBEHIND := 255

  datatype Tree =
    | TChar(c: Byte)
    | TSet(cs: Charset)
    | TAny
    | TTrue
    | TFalse
    | TRep(body: Tree)
    | TSeq(p1: Tree, p2: Tree)
    | TChoice(p1: Tree, p2: Tree)
    | TNot(body: Tree)
    | TAnd(body: Tree)
    | TBehind(n: nat, body: Tree)
    | TCapture(kind: nat, key: nat, body: Tree)

  /** One capture: its extent in the subject and the captures made inside it. */
  datatype CapTree = CapTree(kind: nat, key: nat, start: nat, end: nat, nested: seq<CapTree>)

  datatype Match =
    | Failure
    | Success(pos: nat, caps: seq<CapTree>)

  /** The meaning of a pattern at position 'i' of subject 's'. A repetition whose body
      consumes nothing is cut off; well-formed trees never get there. */
  function Peg(t: Tree, s: Subject, i: nat): (m: Match)
    requires i <= |s|
    ensures m.Success? ==> i <= m.pos <= |s|
    decreases t, |s| - i
  {
    match t
    case TChar(c) => if i < |s| && s[i] == c then Success(i + 1, []) else Failure
    case TSet(cs) => if i < |s| && s[i] in cs then Success(i + 1, []) else Failure
    case TAny => if i < |s| then Success(i + 1, []) else Failure
    case TTrue => Success(i, [])
    case TFalse => Failure
    case TRep(body) =>
      var m := Peg(body, s, i);
      if m.Failure? || m.pos == i then
        Success(i, [])
      else
        var rest := Peg(t, s, m.pos);
        if rest.Failure? then Failure else Success(rest.pos, m.caps + rest.caps)
    case TSeq(p1, p2) =>
      var m := Peg(p1, s, i);
      if m.Failure? then
        Failure
      else
        var rest := Peg(p2, s, m.pos);
        if rest.Failure? then Failure else Success(rest.pos, m.caps + rest.caps)
    case TChoice(p1, p2) =>
      var m := Peg(p1, s, i);
      if m.Success? then m else Peg(p2, s, i)
    case TNot(body) => if Peg(body, s, i).Success? then Failure else Success(i, [])
    case TAnd(body) => if Peg(body, s, i).Success? then Success(i, []) else Failure
    case TBehind(n, body) =>
      if n <= i && Peg(body, s, i - n).Success? then Success(i, []) else Failure
    case TCapture(kind, key, body) =>
      var m := Peg(body, s, i);
      if m.Failure? then Failure else Success(m.pos, [CapTree(kind, key, i, m.pos, m.caps)])
  }

  /** A repetition always succeeds. */
  lemma {:induction false} RepSucceeds(body: Tree, s: Subject, i: nat)
    requires i <= |s|
    ensures Peg(TRep(body), s, i).Success?
    decreases |s| - i
  {
    var m := Peg(body, s, i);
    if m.Success? && m.pos > i {
      RepSucceeds(body, s, m.pos);
    }
  }
}
