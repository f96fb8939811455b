/** The string operations the readers use. */
module Text {

  /** `/\s/u`: the white space and line terminators of ECMAScript. */
  predicate IsSpace(c: char) {
    var code := c as int;
    || 0x09 <= code <= 0x0d || code == 0x20 || code == 0xa0 || code == 0x1680
    || 0x2000 <= code <= 0x200a || code == 0x2028 || code == 0x2029 || code == 0x202f
    || code == 0x205f || code == 0x3000 || code == 0xfeff
  }

  /** `!text.trim()` */
  predicate Blank(text: string) {
    forall c | c in text :: IsSpace(c)
  }

  function TrimStart(text: string): string {
    if text != [] && IsSpace(text[0]) then TrimStart(text[1..]) else text
  }

  function TrimEnd(text: string): string {
    if text != [] && IsSpace(text[|text| - 1]) then TrimEnd(text[..|text| - 1]) else text
  }

  function Trim(text: string): string {
    TrimEnd(TrimStart(text))
  }

  /** `text || fallback` */
  function Otherwise(text: string, fallback: string): string {
    if text != "" then text else fallback
  }

  function Join(texts: seq<string>, separator: string): string {
    if texts == [] then ""
    else if |texts| == 1 then texts[0]
    else texts[0] + separator + Join(texts[1..], separator)
  }

  function NonEmpty(texts: seq<string>): seq<string> {
    if texts == [] then []
    else (if texts[0] != "" then [texts[0]] else []) + NonEmpty(texts[1..])
  }

  lemma {:induction false} NonEmptySnoc(texts: seq<string>, text: string)
    ensures NonEmpty(texts + [text]) == NonEmpty(texts) + if text != "" then [text] else []
  {
    if texts != [] {
      NonEmptySnoc(texts[1..], text);
      assert (texts + [text])[1..] == texts[1..] + [text];
    }
  }

  lemma {:induction false} JoinSnoc(texts: seq<string>, text: string, separator: string)
    ensures Join(texts + [text], separator)
        == if texts == [] then text else Join(texts, separator) + separator + text
  {
    if |texts| > 1 {
      JoinSnoc(texts[1..], text, separator);
      assert (texts + [text])[1..] == texts[1..] + [text];
    } else if |texts| == 1 {
      assert (texts + [text])[1..] == [text];
    }
  }

  lemma {:induction false} TrimStartCuts(text: string) returns (i: nat)
    ensures i <= |text| && TrimStart(text) == text[i..] && Blank(text[..i])
    ensures TrimStart(text) != "" ==> !IsSpace(TrimStart(text)[0])
  {
    if text != "" && IsSpace(text[0]) {
      i := TrimStartCuts(text[1..]);
      assert text[..i + 1] == [text[0]] + text[1..][..i];
      i := i + 1;
    } else {
      i := 0;
    }
  }

  lemma {:induction false} TrimEndCuts(text: string) returns (i: nat)
    ensures i <= |text| && TrimEnd(text) == text[..i] && Blank(text[i..])
    ensures TrimEnd(text) != "" ==> !IsSpace(TrimEnd(text)[|TrimEnd(text)| - 1])
  {
    if text != "" && IsSpace(text[|text| - 1]) {
      i := TrimEndCuts(text[..|text| - 1]);
      assert text[i..] == text[..|text| - 1][i..] + [text[|text| - 1]];
    } else {
      i := |text|;
    }
  }

  /** Trimming takes white space off both ends and leaves none there. */
  lemma TrimIsCore(text: string) returns (i: nat, j: nat)
    ensures i <= j <= |text| && Trim(text) == text[i..j] && Blank(text[..i]) && Blank(text[j..])
    ensures Trim(text) != "" ==> !IsSpace(Trim(text)[0]) && !IsSpace(Trim(text)[|Trim(text)| - 1])
    ensures Blank(Trim(text)) <==> Trim(text) == ""
  {
    hide TrimStart, TrimEnd, IsSpace;
    i := TrimStartCuts(text);
    var rest := TrimStart(text);
    j := TrimEndCuts(rest);
    assert rest[..j] == text[i..i + j] && rest[j..] == text[i + j..];
    EdgeIsNotBlank(Trim(text));
    assert Trim(text) == TrimEnd(rest);
    assert Trim(text) != "" ==> Trim(text)[0] == rest[0];
    j := i + j;
  }

  lemma EdgeIsNotBlank(text: string)
    ensures text != "" && !IsSpace(text[0]) ==> !Blank(text)
    ensures Blank("")
  {
    assert text != "" ==> text[0] in text;
  }
}
