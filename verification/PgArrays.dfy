/** Text of PostgreSQL arrays: the two parsers of the backend, against the repository's own printers. */
module PgArrays {
  import opened Common
  import opened Decimal

  // ---------- escape ----------

  predicate NeedsBackslash(c: char) { c == '"' || c == '\\' }

  function EscapedChars(s: string): string {
    if s == [] then [] else (if NeedsBackslash(s[0]) then ['\\', s[0]] else [s[0]]) + EscapedChars(s[1..])
  }

  function Escaped(s: string): string { ['"'] + EscapedChars(s) + ['"'] }

  function SpecialCount(s: string): (n: nat) {
    if s == [] then 0 else SpecialCount(s[..|s| - 1]) + if NeedsBackslash(s[|s| - 1]) then 1 else 0
  }

  lemma {:induction false} EscapedCharsConcat(a: string, b: string)
    ensures EscapedChars(a + b) == EscapedChars(a) + EscapedChars(b)
    decreases |a|
  {
    if a == [] {
      assert a + b == b;
    } else {
      assert (a + b)[1..] == a[1..] + b;
      EscapedCharsConcat(a[1..], b);
    }
  }

  /** What stands in the escaped text for the character at `i`. */
  lemma {:induction false} EscapedAt(s: string, i: nat)
    requires i < |s|
    ensures var o := |EscapedChars(s[..i])|; var n := |EscapedChars(s[..i + 1])|;
      n <= |EscapedChars(s)| &&
      if NeedsBackslash(s[i]) then n == o + 2 && EscapedChars(s)[o] == '\\' && EscapedChars(s)[o + 1] == s[i]
      else n == o + 1 && EscapedChars(s)[o] == s[i]
  {
    EscapedCharsConcat(s[..i], s[i..]);
    assert s == s[..i] + s[i..];
    EscapedCharsConcat(s[..i], [s[i]]);
    assert s[..i + 1] == s[..i] + [s[i]];
    assert [s[i]][1..] == [];
  }

  lemma {:induction false} SizeIsExact(s: string)
    ensures |EscapedChars(s)| == |s| + SpecialCount(s)
    decreases |s|
  {
    if s != [] {
      SizeIsExact(s[..|s| - 1]);
      EscapedAt(s, |s| - 1);
      assert s[..|s|] == s;
    }
  }

  method CountSpecial(input: string) returns (n: nat)
    ensures n == SpecialCount(input)
  {
    n := 0;
    for i := 0 to |input|
      invariant n == SpecialCount(input[..i])
    {
      assert input[..i + 1][..i] == input[..i];
      if NeedsBackslash(input[i]) {
        n := n + 1;
      }
    }
    assert input[..|input|] == input;
  }

  /** The buffer is sized by a first pass and filled by offset; the second pass fills it exactly. */
  method Escape(input: string) returns (result: array<char>)
    ensures fresh(result) && result[..] == Escaped(input)
  {
    var n := CountSpecial(input);
    SizeIsExact(input);
    ghost var want := Escaped(input);
    result := new char[|input| + n + 2](_ => ' ');
    var offset := 0;
    result[offset] := '"';
    offset := offset + 1;
    for i := 0 to |input|
      invariant offset == 1 + |EscapedChars(input[..i])| < result.Length
      invariant forall k :: 0 <= k < offset ==> result[k] == want[k]
    {
      EscapedAt(input, i);
      if NeedsBackslash(input[i]) {
        result[offset] := '\\';
        offset := offset + 1;
      }
      result[offset] := input[i];
      offset := offset + 1;
    }
    assert input[..|input|] == input;
    result[offset] := '"';
    offset := offset + 1;
    assert offset == result.Length;
  }

  // ---------- psql_array_to_vector ----------

  /** The locals of the parser's loop. */
  datatype Scan = Scan(strs: seq<string>, value: string, quoted: bool, escaped: bool)

  function ScanChar(s: Scan, c: char): Scan {
    if c == ',' || c == '}' then
      if s.quoted then s.(value := s.value + [c]) else s.(strs := s.strs + [s.value], value := "")
    else if c == '"' then
      if s.escaped then s.(value := s.value + ['"'], escaped := false) else s.(quoted := !s.quoted)
    else if c == '\\' then
      if s.escaped then s.(value := s.value + ['\\'], escaped := false) else s.(escaped := true)
    else s.(value := s.value + [c])
  }

  function ScanAll(s: Scan, text: string): Scan
    decreases |text|
  {
    if text == [] then s else ScanAll(ScanChar(s, text[0]), text[1..])
  }

  function ArrayToVector(str: string): seq<string> {
    if str == "{NULL}" || str == "" then [] else ScanAll(Scan([], "", false, false), str[1..]).strs
  }

  method PsqlArrayToVector(str: string) returns (strs: seq<string>)
    ensures strs == ArrayToVector(str)
  {
    strs := [];
    var value, quotedValue, escaped, write := "", false, false, false;
    if str == "{NULL}" || str == "" {
      return;
    }
    var i := 1;
    while i < |str|
      invariant 1 <= i <= |str| && !write
      invariant ScanAll(Scan(strs, value, quotedValue, escaped), str[i..]).strs == ArrayToVector(str)
    {
      assert str[i..][1..] == str[i + 1..];
      if str[i] == ',' {
        if quotedValue {
          value := value + [','];
        } else {
          write := true;
        }
      } else if str[i] == '"' {
        if escaped {
          value := value + ['"'];
          escaped := false;
        } else if quotedValue {
          quotedValue := false;
        } else {
          quotedValue := true;
        }
      } else if str[i] == '\\' {
        if escaped {
          value := value + ['\\'];
          escaped := false;
        } else {
          escaped := true;
        }
      } else if str[i] == '}' {
        if quotedValue {
          value := value + ['}'];
        } else {
          write := true;
        }
      } else {
        value := value + [str[i]];
      }
      if write {
        strs := strs + [value];
        value := "";
        write := false;
      }
      i := i + 1;
    }
  }

  // ---------- Round trip ----------

  /** An element as it stands in the text: between quotes with escapes, or bare. */
  datatype Form = Quoted(text: string) | Bare(text: string) {
    function Print(): string { if Quoted? then Escaped(text) else text }

    /** A bare element has none of the four characters that the parser acts on. */
    predicate Printable() {
      Bare? ==> forall i :: 0 <= i < |text| ==> text[i] != ',' && text[i] != '}' && !NeedsBackslash(text[i])
    }
  }

  predicate AllPrintable(forms: seq<Form>) { forall i :: 0 <= i < |forms| ==> forms[i].Printable() }

  function Texts(forms: seq<Form>): seq<string> {
    if forms == [] then [] else [forms[0].text] + Texts(forms[1..])
  }

  /** The elements separated by commas, and the closing brace. */
  function Tail(forms: seq<Form>): string
    requires forms != []
  {
    forms[0].Print() + if |forms| == 1 then "}" else "," + Tail(forms[1..])
  }

  function PrintArray(forms: seq<Form>): string
    requires forms != []
  {
    "{" + Tail(forms)
  }

  lemma {:induction false} ScanConcat(s: Scan, a: string, b: string)
    ensures ScanAll(s, a + b) == ScanAll(ScanAll(s, a), b)
    decreases |a|
  {
    if a == [] {
      assert a + b == b;
    } else {
      assert (a + b)[1..] == a[1..] + b;
      ScanConcat(ScanChar(s, a[0]), a[1..], b);
    }
  }

  /** Inside quotes, escaped text is collected as it was. */
  lemma {:induction false} ScanEscaped(s: Scan, t: string)
    requires s.quoted && !s.escaped
    ensures ScanAll(s, EscapedChars(t)) == s.(value := s.value + t)
    decreases |t|
  {
    if t == [] {
      assert s.value + t == s.value;
    } else {
      var head := if NeedsBackslash(t[0]) then ['\\', t[0]] else [t[0]];
      var next := s.(value := s.value + [t[0]]);
      ScanConcat(s, head, EscapedChars(t[1..]));
      assert ScanAll(s, head) == next by {
        if NeedsBackslash(t[0]) {
          assert head[1..] == [t[0]] && [t[0]][1..] == [];
          assert ScanAll(ScanChar(s, '\\'), [t[0]]) == ScanAll(next, []);
        } else {
          assert ScanAll(next, head[1..]) == next;
        }
      }
      ScanEscaped(next, t[1..]);
      assert s.value + [t[0]] + t[1..] == s.value + t;
    }
  }

  lemma {:induction false} ScanBare(s: Scan, t: string)
    requires !s.quoted && Bare(t).Printable()
    ensures ScanAll(s, t) == s.(value := s.value + t)
    decreases |t|
  {
    if t == [] {
      assert s.value + t == s.value;
    } else {
      ScanBare(s.(value := s.value + [t[0]]), t[1..]);
      assert s.value + [t[0]] + t[1..] == s.value + t;
    }
  }

  lemma {:induction false} ScanForm(s: Scan, f: Form)
    requires !s.quoted && !s.escaped && s.value == "" && f.Printable()
    ensures ScanAll(s, f.Print()) == s.(value := f.text)
  {
    if f.Bare? {
      ScanBare(s, f.text);
    } else {
      var inside := s.(quoted := true);
      assert Escaped(f.text) == ['"'] + (EscapedChars(f.text) + ['"']);
      ScanConcat(s, ['"'], EscapedChars(f.text) + ['"']);
      assert ScanAll(s, ['"']) == inside by {
        assert ['"'][1..] == [];
      }
      ScanConcat(inside, EscapedChars(f.text), ['"']);
      ScanEscaped(inside, f.text);
      assert ScanAll(inside.(value := f.text), ['"']) == s.(value := f.text) by {
        assert ['"'][1..] == [];
      }
    }
  }

  lemma {:induction false} ScanDelimiter(s: Scan, c: char)
    requires !s.quoted && (c == ',' || c == '}')
    ensures ScanAll(s, [c]) == s.(strs := s.strs + [s.value], value := "")
  {
    assert [c][1..] == [];
  }

  lemma {:induction false} ScanDelimited(s: Scan, f: Form, c: char, rest: string)
    requires !s.quoted && !s.escaped && s.value == "" && f.Printable() && (c == ',' || c == '}')
    ensures ScanAll(s, f.Print() + ([c] + rest)) == ScanAll(s.(strs := s.strs + [f.text]), rest)
  {
    ScanConcat(s, f.Print(), [c] + rest);
    ScanForm(s, f);
    ScanConcat(s.(value := f.text), [c], rest);
    ScanDelimiter(s.(value := f.text), c);
  }

  lemma {:induction false} TextsCons(done: seq<string>, forms: seq<Form>)
    requires forms != []
    ensures done + [forms[0].text] + Texts(forms[1..]) == done + Texts(forms)
  {
  }

  lemma {:induction false} ScanTail(s: Scan, forms: seq<Form>)
    requires forms != [] && AllPrintable(forms)
    requires !s.quoted && !s.escaped && s.value == ""
    ensures ScanAll(s, Tail(forms)).strs == s.strs + Texts(forms)
    decreases |forms|
  {
    var next := s.(strs := s.strs + [forms[0].text]);
    TextsCons(s.strs, forms);
    if |forms| == 1 {
      ScanDelimited(s, forms[0], '}', "");
      assert ['}'] + "" == "}";
      assert next.strs + [] == next.strs;
    } else {
      ScanDelimited(s, forms[0], ',', Tail(forms[1..]));
      ScanTail(next, forms[1..]);
    }
  }

  /**
   Round trip for every non-empty list, each element quoted or bare: the parser returns the list, except for the array
   whose only element is a bare `NULL`, for which it returns the empty list.
   */
  lemma {:induction false} ArrayRoundTrip(forms: seq<Form>)
    requires forms != [] && AllPrintable(forms)
    ensures ArrayToVector(PrintArray(forms)) == if forms == [Bare("NULL")] then [] else Texts(forms)
  {
    var text := PrintArray(forms);
    assert text[1..] == Tail(forms);
    ScanTail(Scan([], "", false, false), forms);
    if text == "{NULL}" {
      OnlyBareNull(forms);
    }
  }

  lemma {:induction false} QuotedBegins(f: Form)
    ensures f.Quoted? ==> f.Print() != [] && f.Print()[0] == '"'
  {
  }

  lemma {:induction false} OnlyBareNull(forms: seq<Form>)
    requires forms != [] && AllPrintable(forms) && PrintArray(forms) == "{NULL}"
    ensures forms == [Bare("NULL")]
  {
    assert Tail(forms) == "NULL}" by {
      assert PrintArray(forms)[1..] == "{NULL}"[1..] == "NULL}";
    }
    var p := forms[0].Print();
    QuotedBegins(forms[0]);
    if |forms| == 1 {
      assert p == Tail(forms)[..|Tail(forms)| - 1] == "NULL";
      assert forms == [forms[0]];
    } else {
      assert Tail(forms)[|p|] == ',';
      assert false;
    }
  }

  // ---------- psql_array_ids_to_vector ----------

  /** The loop from position `i` on, the current number having begun at `start`. */
  function IdsFrom(str: string, start: nat, i: nat, lo: int, hi: int): Result<seq<int>>
    requires start <= i <= |str|
    decreases |str| - i
  {
    if i == |str| then Ok([])
    else if str[i] == ',' || str[i] == '}' then
      match FromChars(str[start..i], lo, hi)
      case Number(id) =>
        var rest :- IdsFrom(str, i + 1, i + 1, lo, hi);
        Ok([id] + rest)
      case _ => Err(ServerError)
    else IdsFrom(str, start, i + 1, lo, hi)
  }

  function ArrayIdsToVector(str: string, lo: int, hi: int): Result<seq<int>> {
    if str == "{NULL}" || str == "" then Ok([]) else IdsFrom(str, 1, 1, lo, hi)
  }

  /** `ids` were read before `rest`. */
  function After(ids: seq<int>, rest: Result<seq<int>>): Result<seq<int>> {
    if rest.Err? then rest else Ok(ids + rest.value)
  }

  lemma {:induction false} AfterNone(rest: Result<seq<int>>)
    ensures After([], rest) == rest
  {
    assert rest.Ok? ==> [] + rest.value == rest.value;
  }

  lemma {:induction false} AfterSnoc(ids: seq<int>, id: int, rest: Result<seq<int>>)
    ensures After(ids, After([id], rest)) == After(ids + [id], rest)
  {
    assert rest.Ok? ==> ids + ([id] + rest.value) == ids + [id] + rest.value;
  }

  method PsqlArrayIdsToVector(str: string, lo: int, hi: int) returns (r: Result<seq<int>>)
    ensures r == ArrayIdsToVector(str, lo, hi)
  {
    var ids := [];
    var startOffset := 1;
    if str == "{NULL}" || str == "" {
      return Ok([]);
    }
    AfterNone(IdsFrom(str, 1, 1, lo, hi));
    var i := 1;
    while i < |str|
      invariant 1 <= startOffset <= i <= |str|
      invariant ArrayIdsToVector(str, lo, hi) == After(ids, IdsFrom(str, startOffset, i, lo, hi))
    {
      if str[i] == ',' || str[i] == '}' {
        match FromChars(str[startOffset..i], lo, hi) {
          case Number(id) =>
            AfterSnoc(ids, id, IdsFrom(str, i + 1, i + 1, lo, hi));
            ids := ids + [id];
            startOffset := i + 1;
          case _ =>
            return Err(ServerError);
        }
      }
      i := i + 1;
    }
    assert ids + [] == ids;
    return Ok(ids);
  }

  function PrintInt(n: int): string { if n < 0 then "-" + Print(0 - n) else Print(n) }

  function IdsTail(ids: seq<int>): string
    requires ids != []
  {
    PrintInt(ids[0]) + if |ids| == 1 then "}" else "," + IdsTail(ids[1..])
  }

  function PrintIds(ids: seq<int>): string
    requires ids != []
  {
    "{" + IdsTail(ids)
  }

  lemma {:induction false} PrintedIdIsRead(n: int, lo: int, hi: int)
    requires lo <= n <= hi
    ensures FromChars(PrintInt(n), lo, hi) == Number(n)
  {
    if n < 0 {
      NegativeIsRead(0 - n, "", lo, hi);
      assert PrintInt(n) + "" == PrintInt(n);
    } else {
      PrintedIsRead(n, "", lo, hi);
      assert PrintInt(n) + "" == PrintInt(n);
    }
  }

  lemma {:induction false} PrintIntChars(n: int, k: nat)
    requires k < |PrintInt(n)|
    ensures PrintInt(n)[k] == '-' || IsDigit(PrintInt(n)[k])
  {
  }

  /** The scan passes over the characters of a number. */
  lemma {:induction false} IdsSkip(str: string, start: nat, i: nat, end: nat, lo: int, hi: int)
    requires start <= i <= end <= |str|
    requires forall k :: i <= k < end ==> str[k] == '-' || IsDigit(str[k])
    ensures IdsFrom(str, start, i, lo, hi) == IdsFrom(str, start, end, lo, hi)
    decreases end - i
  {
    if i < end {
      IdsSkip(str, start, i + 1, end, lo, hi);
    }
  }

  lemma {:induction false} FirstIdIsRead(prefix: string, id: int, c: char, rest: string, lo: int, hi: int)
    requires lo <= id <= hi && (c == ',' || c == '}')
    ensures var before := prefix + PrintInt(id) + [c];
      IdsFrom(before + rest, |prefix|, |prefix|, lo, hi)
        == After([id], IdsFrom(before + rest, |before|, |before|, lo, hi))
  {
    var number := PrintInt(id);
    var str := prefix + number + [c] + rest;
    var end := |prefix| + |number|;
    forall k | |prefix| <= k < end
      ensures str[k] == '-' || IsDigit(str[k])
    {
      PrintIntChars(id, k - |prefix|);
    }
    IdsSkip(str, |prefix|, |prefix|, end, lo, hi);
    assert str[|prefix|..end] == number;
    PrintedIdIsRead(id, lo, hi);
    assert str[end] == c;
  }

  lemma {:induction false} IdsTailIsRead(prefix: string, ids: seq<int>, lo: int, hi: int)
    requires ids != [] && forall j :: 0 <= j < |ids| ==> lo <= ids[j] <= hi
    ensures IdsFrom(prefix + IdsTail(ids), |prefix|, |prefix|, lo, hi) == Ok(ids)
    decreases |ids|
  {
    var c := if |ids| == 1 then '}' else ',';
    var rest := if |ids| == 1 then "" else IdsTail(ids[1..]);
    var before := prefix + PrintInt(ids[0]) + [c];
    assert prefix + IdsTail(ids) == before + rest;
    FirstIdIsRead(prefix, ids[0], c, rest, lo, hi);
    if |ids| == 1 {
      assert before + rest == before;
      assert IdsFrom(before, |before|, |before|, lo, hi) == Ok([]);
      assert ids == [ids[0]] + [];
    } else {
      IdsTailIsRead(before, ids[1..], lo, hi);
      assert ids == [ids[0]] + ids[1..];
    }
  }

  /** Round trip for every non-empty list of numbers of the type. */
  lemma {:induction false} IdsRoundTrip(ids: seq<int>, lo: int, hi: int)
    requires ids != [] && forall j :: 0 <= j < |ids| ==> lo <= ids[j] <= hi
    ensures ArrayIdsToVector(PrintIds(ids), lo, hi) == Ok(ids)
  {
    IdsTailIsRead("{", ids, lo, hi);
    PrintIntChars(ids[0], 0);
    assert PrintIds(ids)[1] == PrintInt(ids[0])[0];
    assert PrintIds(ids) != "{NULL}" by {
      assert "{NULL}"[1] == 'N';
    }
  }
}
