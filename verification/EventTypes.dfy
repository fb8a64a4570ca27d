/** Event type names: the Go name of an event struct in dotted lower case. */
module EventTypes {
  import opened Text

  predicate IsUpper(c: char) {
    'A' <= c <= 'Z'
  }

  function Join(parts: seq<string>, sep: string): string {
    if parts == [] then ""
    else if |parts| == 1 then parts[0]
    else Join(parts[..|parts| - 1], sep) + sep + parts[|parts| - 1]
  }

  /** Every letter in lower case, and a dot before each capital but the first letter. */
  function Dotted(s: string): string {
    if s == "" then ""
    else
      var init, c := s[..|s| - 1], s[|s| - 1];
      Dotted(init) + (if init != "" && IsUpper(c) then "." else "") + [Lower(c)]
  }

  /** `camelToDotCase`: cut before each capital, lower every part, join with dots. */
  method CamelToDotCase(s: string) returns (r: string)
    ensures r == Dotted(s)
  {
    hide Join, Dotted, ToLower, Lower, IsUpper;
    var parts: seq<string> := [];
    var start := 0;
    if s == "" {
      DottedEmpty();
      return "";
    }
    DottedOne(s);
    for i := 1 to |s|
      invariant start < i
      invariant Join(parts + [ToLower(s[start..i])], ".") == Dotted(s[..i])
    {
      DottedNext(s, i);
      LowerSnoc(s, start, i);
      if IsUpper(s[i]) {
        JoinSnoc(parts + [ToLower(s[start..i])], ToLower(s[i..i + 1]));
        parts := parts + [ToLower(s[start..i])];
        start := i;
      } else {
        JoinGrow(parts, ToLower(s[start..i]), Lower(s[i]));
      }
    }
    assert s[..|s|] == s && s[start..|s|] == s[start..];
    parts := parts + [ToLower(s[start..])];
    r := Join(parts, ".");
  }

  lemma DottedEmpty()
    ensures Dotted("") == ""
  {
  }

  lemma LowerSnoc(s: string, start: nat, i: nat)
    requires start < i < |s|
    ensures ToLower(s[start..i + 1]) == ToLower(s[start..i]) + [Lower(s[i])]
  {
  }

  lemma DottedOne(s: string)
    requires s != ""
    ensures Join([] + [ToLower(s[0..1])], ".") == Dotted(s[..1])
  {
    assert Dotted(s[..1][..0]) == "";
    assert ToLower(s[0..1]) == [Lower(s[0])];
  }

  lemma DottedNext(s: string, i: nat)
    requires 1 <= i < |s|
    ensures Dotted(s[..i + 1]) == Dotted(s[..i]) + (if IsUpper(s[i]) then "." else "") + [Lower(s[i])]
    ensures ToLower(s[i..i + 1]) == [Lower(s[i])]
  {
    assert s[..i + 1][..i] == s[..i];
  }

  lemma JoinSnoc(parts: seq<string>, part: string)
    requires parts != []
    ensures Join(parts + [part], ".") == Join(parts, ".") + "." + part
  {
    assert (parts + [part])[..|parts|] == parts;
  }

  lemma JoinGrow(parts: seq<string>, part: string, c: char)
    ensures Join(parts + [part + [c]], ".") == Join(parts + [part], ".") + [c]
  {
    assert (parts + [part])[..|parts|] == parts == (parts + [part + [c]])[..|parts|];
  }

  /** Split at the dots, capitalise each part, and put them together again. */
  function Undotted(d: string): string {
    if d == "" then ""
    else
      var init, c := d[..|d| - 1], d[|d| - 1];
      if c == '.' then Undotted(init)
      else Undotted(init) + [if init == "" || init[|init| - 1] == '.' then Upper(c) else c]
  }

  /** Exported Go names: a capital first, and no dot. */
  predicate IsName(s: string) {
    s != "" && IsUpper(s[0]) && forall i :: 0 <= i < |s| ==> s[i] != '.'
  }

  lemma UndottedSnoc(d: string, c: char)
    ensures Undotted(d + [c]) ==
            if c == '.' then Undotted(d) else Undotted(d) + [if d == "" || d[|d| - 1] == '.' then Upper(c) else c]
  {
    assert (d + [c])[..|d|] == d;
  }

  /** Dotting one more letter. */
  lemma DottedSnoc(init: string, c: char)
    ensures Dotted(init + [c]) == Dotted(init) + (if init != "" && IsUpper(c) then "." else "") + [Lower(c)]
  {
    assert (init + [c])[..|init|] == init;
  }

  /** A name loses nothing by one more letter, if it has lost nothing so far. */
  lemma UndottedStep(init: string, d: string, c: char)
    requires init != "" && d != "" && Undotted(d) == init && d[|d| - 1] != '.' && c != '.'
    ensures Undotted(d + (if IsUpper(c) then "." else "") + [Lower(c)]) == init + [c]
  {
    hide Undotted;
    if IsUpper(c) {
      assert d + "." == d + ['.'];
      UndottedSnoc(d, '.');
      UndottedSnoc(d + ['.'], Lower(c));
      LowerUpper(c);
    } else {
      assert d + "" == d;
      UndottedSnoc(d, c);
    }
  }

  lemma LowerUpper(c: char)
    requires IsUpper(c)
    ensures Upper(Lower(c)) == c && Lower(c) != '.'
  {
  }

  lemma LowerIsNoDot(c: char)
    requires c != '.'
    ensures Lower(c) != '.'
  {
  }

  /** The dotted form loses nothing. */
  lemma {:induction false} UndottedDotted(s: string)
    requires IsName(s)
    ensures Undotted(Dotted(s)) == s
    ensures Dotted(s) != "" && Dotted(s)[|Dotted(s)| - 1] != '.'
  {
    hide Dotted, Undotted, Lower, Upper, IsUpper;
    var init, c := s[..|s| - 1], s[|s| - 1];
    assert s == init + [c];
    DottedSnoc(init, c);
    LowerIsNoDot(c);
    if init == "" {
      DottedEmpty();
      UndottedSnoc("", Lower(c));
      UndottedEmpty();
      LowerUpper(c);
      assert Dotted(s) == [Lower(c)] && s == [c];
      assert "" + [Lower(c)] == [Lower(c)] && "" + [c] == [c];
    } else {
      UndottedDotted(init);
      UndottedStep(init, Dotted(init), c);
    }
  }

  lemma UndottedEmpty()
    ensures Undotted("") == ""
  {
  }

  lemma LowerOfSnoc(init: string, c: char)
    ensures ToLower(init + [c]) == ToLower(init) + [Lower(c)] && ToLower("") == ""
  {
  }

  /** A word with no capital after its first letter is put in lower case as it is. */
  lemma {:induction false} DottedWord(s: string)
    requires forall i :: 1 <= i < |s| ==> !IsUpper(s[i])
    ensures Dotted(s) == ToLower(s)
  {
    hide Dotted, ToLower, Lower, IsUpper;
    if s == "" {
      DottedEmpty();
      LowerOfSnoc("", 'a');
    } else {
      var init, c := s[..|s| - 1], s[|s| - 1];
      assert s == init + [c];
      DottedWord(init);
      DottedSnoc(init, c);
      LowerOfSnoc(init, c);
      assert Dotted(init) + "" == Dotted(init);
    }
  }

  /** And where a capital begins a new word, there is a dot. */
  lemma {:induction false} DottedWords(s: string, word: string)
    requires s != "" && word != "" && 'A' <= word[0] <= 'Z'
    ensures Dotted(s + word) == Dotted(s) + "." + Dotted(word)
  {
    hide Dotted, Lower;
    var init, c := word[..|word| - 1], word[|word| - 1];
    assert word == init + [c] && s + word == (s + init) + [c];
    DottedSnoc(s + init, c);
    DottedSnoc(init, c);
    if init == "" {
      DottedEmpty();
      assert s + init == s && Dotted(word) == "" + "" + [Lower(c)] && word[0] == c;
    } else {
      assert init[0] == word[0];
      DottedWords(s, init);
    }
  }

  /** Two words, as in the names of the repository's event structs. */
  lemma TwoWords(a: string, b: string)
    requires a != "" && b != "" && 'A' <= b[0] <= 'Z'
    requires forall i :: 1 <= i < |a| ==> !('A' <= a[i] <= 'Z')
    requires forall i :: 1 <= i < |b| ==> !('A' <= b[i] <= 'Z')
    ensures DeriveEventType(Struct(a + b)) == ToLower(a) + "." + ToLower(b)
    ensures DeriveEventType(Enveloped(a)) == a && DeriveEventType(Struct("")) == "unknown"
  {
    DottedWords(a, b);
    DottedWord(a);
    DottedWord(b);
  }

  /** What `deriveEventType` looks at: an envelope, or the name of the event's type. */
  datatype Published = Enveloped(kind: string) | Struct(name: string)

  function DeriveEventType(e: Published): string {
    match e
    case Enveloped(kind) => kind
    case Struct(name) => if name == "" then "unknown" else Dotted(name)
  }

  /** Distinct event structs get distinct event types. */
  lemma EventTypesDistinct(a: string, b: string)
    requires IsName(a) && IsName(b) && DeriveEventType(Struct(a)) == DeriveEventType(Struct(b))
    ensures a == b
  {
    UndottedDotted(a);
    UndottedDotted(b);
  }
}
