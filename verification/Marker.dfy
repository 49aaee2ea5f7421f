/** The marker of an unlocked boot (src/boot.rs, `marker_text`, `marker_says_unlocked`): written
    before the first unlock, it must be recognised by every later start of the same boot. */
module Marker {
  import opened Codec
  import opened Options

  function TrimStart(s: string): string {
    if s != "" && IsSpace(s[0]) then TrimStart(s[1..]) else s
  }

  function TrimEnd(s: string): string {
    if s != "" && IsSpace(s[|s| - 1]) then TrimEnd(s[..|s| - 1]) else s
  }

  function Trim(s: string): string {
    TrimEnd(TrimStart(s))
  }

  function Lower(c: char): char {
    if 'A' <= c <= 'Z' then (c as int + 32) as char else c
  }

  /** An id without its dashes, in lower case. */
  function Bare(s: string): string {
    if s == "" then ""
    else if s[0] == '-' then Bare(s[1..])
    else [Lower(s[0])] + Bare(s[1..])
  }

  function SameId(a: string, b: string): bool {
    Bare(Trim(a)) != "" && Bare(Trim(a)) == Bare(Trim(b))
  }

  function MarkerText(bootId: Option<string>): string {
    (if bootId.Some? && Trim(bootId.value) != "" then bootId.value else "unknown") + "\n"
  }

  /** What a start makes of the marker: whether a daemon may have unlocked the card this boot. */
  function MarkerRefuses(marker: Option<string>, bootId: Option<string>): bool {
    if marker.None? then false
    else
      var id := Trim(marker.value);
      !(bootId.Some? && id != "" && id != "unknown" && !SameId(id, bootId.value))
  }

  lemma {:induction false} TrimStartFixed(s: string)
    ensures TrimStart(s) == "" || !IsSpace(TrimStart(s)[0])
    ensures |TrimStart(s)| <= |s|
  {
    if s != "" && IsSpace(s[0]) { TrimStartFixed(s[1..]); }
  }

  lemma {:induction false} TrimEndFixed(s: string)
    ensures TrimEnd(s) <= s
    ensures TrimEnd(s) == "" || !IsSpace(TrimEnd(s)[|TrimEnd(s)| - 1])
  {
    if s != "" && IsSpace(s[|s| - 1]) { TrimEndFixed(s[..|s| - 1]); }
  }

  lemma TrimFixed(s: string)
    ensures Trim(Trim(s)) == Trim(s)
  {
    TrimStartFixed(s);
    TrimEndFixed(TrimStart(s));
    var t := Trim(s);
    if t != "" {
      assert t[0] == TrimStart(s)[0];
    }
  }

  /** A line's end at the end of a text goes with the trimming. */
  lemma {:induction false} TrimNewline(s: string)
    ensures Trim(s + "\n") == Trim(s)
  {
    if s == "" {
      assert s + "\n" == "\n" && TrimStart("\n") == TrimStart("\n"[1..]);
    } else if IsSpace(s[0]) {
      assert (s + "\n")[1..] == s[1..] + "\n";
      TrimNewline(s[1..]);
    } else {
      assert (s + "\n")[..|s|] == s;
    }
  }

  /** A boot id is well formed if something but dashes is left of it once trimmed, or nothing at all. */
  predicate WellFormed(bootId: Option<string>) {
    bootId.None? || Trim(bootId.value) == "" || Bare(Trim(bootId.value)) != ""
  }

  lemma MarkerOfThisBoot(bootId: Option<string>)
    ensures MarkerRefuses(Some(MarkerText(bootId)), bootId) <==> WellFormed(bootId)
  {
    if bootId.Some? && Trim(bootId.value) != "" {
      var b := bootId.value;
      TrimNewline(b);
      TrimFixed(b);
      if Trim(b) == "unknown" {
        assert Bare("unknown") == [Lower('u')] + Bare("unknown"[1..]);
      }
    } else {
      TrimNewline("unknown");
      assert Trim("unknown") == "unknown";
    }
  }
}
