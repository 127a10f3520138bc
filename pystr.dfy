/**
  Python's `str.split(" ")` and `" ".join(...)` on strings.

  With an explicit separator, Python splits at EVERY single space: two spaces in
  a row give an empty field, a leading or trailing space gives an empty first or
  last field, and the empty string splits into one empty field. The bearer-token
  guard depends on exactly these rules.
*/
module PyStr {

  /** `s.split(" ")`: one field more than there are spaces, none holding a space. */
  function Split(s: string): (fields: seq<string>)
    ensures |fields| == multiset(s)[' '] + 1
    ensures forall i :: 0 <= i < |fields| ==> ' ' !in fields[i]
    decreases |s|
  {
    if s == [] then [[]]
    else
      assert s == [s[0]] + s[1..];
      var rest := Split(s[1..]);
      if s[0] == ' ' then [[]] + rest
      else [[s[0]] + rest[0]] + rest[1..]
  }

  /** `" ".join(fields)`. */
  function Join(fields: seq<string>): (joined: string)
  {
    if |fields| == 0 then []
    else if |fields| == 1 then fields[0]
    else fields[0] + [' '] + Join(fields[1..])
  }

  /** Joining the fields of a split with single spaces gives back the string. */
  lemma {:induction false} JoinSplit(s: string)
    ensures Join(Split(s)) == s
    decreases |s|
  {
    if s != [] {
      var rest := Split(s[1..]);
      JoinSplit(s[1..]);
      SplitHeadTail(s);
      if s[0] == ' ' {
        JoinCons([], rest);
      } else if |rest| == 1 {
        assert Split(s) == [[s[0]] + rest[0]];
      } else {
        SplitHeadTail(rest);
        JoinCons([s[0]] + rest[0], rest[1..]);
        JoinCons(rest[0], rest[1..]);
        ConsAssoc(s[0], rest[0], Join(rest[1..]));
      }
    }
  }

  /** A space-free prefix stays glued to the first field of what follows it. */
  lemma {:induction false} SplitSpaceFreePrefix(w: string, s: string)
    requires ' ' !in w
    ensures Split(w + s) == [w + Split(s)[0]] + Split(s)[1..]
    decreases |w|
  {
    if w == [] {
      assert w + s == s;
      assert w + Split(s)[0] == Split(s)[0];
      SplitHeadTail(Split(s));
    } else {
      SplitSpaceFreePrefix(w[1..], s);
      TailOfConcat(w, s);
      var rest := Split(w[1..] + s);
      assert rest[0] == w[1..] + Split(s)[0] && rest[1..] == Split(s)[1..];
      ConsConcat(w, Split(s)[0]);
    }
  }

  /** Splitting space-free fields joined by single spaces gives back the fields. */
  lemma {:induction false} SplitJoin(fields: seq<string>)
    requires |fields| >= 1
    requires forall i :: 0 <= i < |fields| ==> ' ' !in fields[i]
    ensures Split(Join(fields)) == fields
    decreases |fields|
  {
    if |fields| == 1 {
      SplitSpaceFreePrefix(fields[0], []);
      assert fields[0] + [] == fields[0];
    } else {
      SplitJoin(fields[1..]);
      SplitHeadTail(fields);
      JoinCons(fields[0], fields[1..]);
      SplitWordSpace(fields[0], Join(fields[1..]));
    }
  }

  /** A space-free word followed by a space is split off as a field of its own. */
  lemma SplitWordSpace(word: string, tail: string)
    requires ' ' !in word
    ensures Split(word + [' '] + tail) == [word] + Split(tail)
  {
    ConcatAssoc(word, [' '], tail);
    SplitSpaceFreePrefix(word, [' '] + tail);
    SplitLeadingSpace(tail);
    GlueEmptyField(word, Split(tail));
  }

  /**
    Whatever space-free word comes first, the second field of
    `word + " " + token + tail` is `token`, as long as `tail` is empty or starts
    with a space.
  */
  lemma SecondFieldAfterFirstSpace(word: string, token: string, tail: string)
    requires ' ' !in word && ' ' !in token
    requires tail == [] || tail[0] == ' '
    ensures |Split(word + [' '] + token + tail)| >= 2
    ensures Split(word + [' '] + token + tail)[1] == token
  {
    ConcatAssoc(word + [' '], token, tail);
    SplitWordSpace(word, token + tail);
    FirstFieldIsToken(token, tail);
  }

  /** A non-empty sequence is its head followed by its tail. */
  lemma SplitHeadTail<T>(s: seq<T>)
    requires s != []
    ensures s == [s[0]] + s[1..]
  {
  }

  /** Joining a field in front of at least one more puts a single space after it. */
  lemma JoinCons(first: string, more: seq<string>)
    requires |more| >= 1
    ensures Join([first] + more) == first + [' '] + Join(more)
  {
    assert ([first] + more)[1..] == more;
  }

  /** A leading space closes an empty first field. */
  lemma SplitLeadingSpace(tail: string)
    ensures Split([' '] + tail) == [[]] + Split(tail)
  {
    assert ([' '] + tail)[1..] == tail;
  }

  /** Gluing a word to an empty first field leaves the word as that field. */
  lemma GlueEmptyField(word: string, fields: seq<string>)
    ensures [word + ([[]] + fields)[0]] + ([[]] + fields)[1..] == [word] + fields
  {
    assert word + [] == word;
    assert ([[]] + fields)[1..] == fields;
  }

  /** A space-free token ends its field when what follows is empty or a space. */
  lemma FirstFieldIsToken(token: string, tail: string)
    requires ' ' !in token
    requires tail == [] || tail[0] == ' '
    ensures Split(token + tail)[0] == token
  {
    SplitSpaceFreePrefix(token, tail);
    assert Split(tail)[0] == [];
    assert token + [] == token;
  }

  /** The tail of a concatenation with a non-empty front. */
  lemma TailOfConcat(w: string, s: string)
    requires w != []
    ensures (w + s)[0] == w[0] && (w + s)[1..] == w[1..] + s
  {
  }

  /** Putting the head of a string back in front of its tail. */
  lemma ConsConcat(w: string, s: string)
    requires w != []
    ensures [w[0]] + (w[1..] + s) == w + s
  {
    SplitHeadTail(w);
  }

  /** Concatenation of three strings associates. */
  lemma ConcatAssoc(a: string, b: string, c: string)
    ensures a + b + c == a + (b + c)
  {
  }

  /** Moving a leading character out of a field joined to the rest. */
  lemma ConsAssoc(c: char, field: string, rest: string)
    ensures ([c] + field) + [' '] + rest == [c] + (field + [' '] + rest)
  {
  }
}
