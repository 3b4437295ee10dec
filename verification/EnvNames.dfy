/** Environment variable names and the configuration keys they stand for. */
module EnvNames {
  import opened Prelude

  const PREFIX := "BACNET_BRIDGE_"

  function LowerChar(c: char): char { if 'A' <= c <= 'Z' then ((c as int) + 32) as char else c }

  function UpperChar(c: char): char { if 'a' <= c <= 'z' then ((c as int) - 32) as char else c }

  function Lower(s: string): string { seq(|s|, i requires 0 <= i < |s| => LowerChar(s[i])) }

  /** `replace("__", ".")`: from the left, without overlaps. */
  function UnderscoresToDots(s: string): string
  {
    if |s| < 2 then s
    else if s[0] == '_' && s[1] == '_' then "." + UnderscoresToDots(s[2..])
    else [s[0]] + UnderscoresToDots(s[1..])
  }

  /** The key a variable name stands for, if it stands for one. */
  function EnvPath(name: string): Option<string>
  {
    if PREFIX <= name then Some(UnderscoresToDots(Lower(name[|PREFIX|..]))) else None
  }

  /** The overrides in an environment: later variables win a shared key. */
  function CollectEnv(vars: seq<(string, string)>): map<string, string>
  {
    if vars == [] then map[]
    else
      var m := CollectEnv(vars[..|vars| - 1]);
      var (name, value) := vars[|vars| - 1];
      match EnvPath(name)
      case None => m
      case Some(path) => m[path := value]
  }

  function Spell(path: string): string
  {
    if path == "" then ""
    else (if path[0] == '.' then "__" else [UpperChar(path[0])]) + Spell(path[1..])
  }

  /** The name that spells a key: upper case, two underscores for a dot. */
  function EnvName(path: string): string { PREFIX + Spell(path) }

  /** Keys whose underscores cannot run into the spelling of a dot or of each other. */
  predicate Spellable(path: string)
  {
    && (forall i | 0 <= i < |path| :: !('A' <= path[i] <= 'Z'))
    && (forall i | 0 <= i < |path| - 1 && path[i] == '_' :: path[i + 1] != '_' && path[i + 1] != '.')
  }

  lemma {:induction false} SpellRoundTrip(path: string)
    requires Spellable(path)
    ensures UnderscoresToDots(Lower(Spell(path))) == path
    ensures path != "" && path[0] != '_' && path[0] != '.' ==> |Lower(Spell(path))| > 0 && Lower(Spell(path))[0] != '_'
  {
    if path != "" {
      var c, rest := path[0], path[1..];
      SpellRoundTrip(rest);
      assert path == [c] + rest;
      var tail := Lower(Spell(rest));
      if c == '.' {
        assert Lower(Spell(path)) == "__" + tail;
        assert ("__" + tail)[2..] == tail;
      } else {
        assert LowerChar(UpperChar(c)) == c;
        assert Lower(Spell(path)) == [c] + tail;
        assert ([c] + tail)[1..] == tail;
      }
    }
  }

  /** Which variables are read at all. */
  lemma {:induction false} ReadNames(name: string)
    ensures EnvPath(name).Some? <==> |name| >= 14 && name[..14] == "BACNET_BRIDGE_"
  {
  }

  /** Of an odd run of underscores the last one stays. */
  lemma {:induction false} ThreeUnderscores(rest: string)
    requires rest != "" ==> rest[0] != '_'
    ensures UnderscoresToDots(['_', '_', '_'] + rest) == ['.', '_'] + UnderscoresToDots(rest)
  {
    var s := ['_', '_', '_'] + rest;
    assert s[2..] == ['_'] + rest && (['_'] + rest)[1..] == rest;
    if rest == "" {
      assert UnderscoresToDots(s[2..]) == ['_'] && UnderscoresToDots(rest) == "";
    } else {
      assert UnderscoresToDots(s[2..]) == ['_'] + UnderscoresToDots(rest);
    }
  }

  /** A key whose spelling is read back as the key itself is spellable. */
  lemma {:induction false} SpelledIsSpellable(path: string)
    requires UnderscoresToDots(Lower(Spell(path))) == path
    ensures Spellable(path)
  {
    if path != "" {
      var c, rest := path[0], path[1..];
      var tail := Lower(Spell(rest));
      assert path == [c] + rest;
      if c == '.' {
        assert Lower(Spell(path)) == "__" + tail;
        assert ("__" + tail)[2..] == tail;
      } else {
        assert Lower(Spell(path)) == [LowerChar(UpperChar(c))] + tail;
        assert ([LowerChar(UpperChar(c))] + tail)[1..] == tail;
        if c == '_' && rest != "" {
          SpellHead(rest);
        }
      }
      assert UnderscoresToDots(Lower(Spell(path)))[1..] == UnderscoresToDots(tail);
      SpelledIsSpellable(rest);
    }
  }

  /** A spelling starts with an underscore exactly when its key starts with one or with a dot. */
  lemma {:induction false} SpellHead(path: string)
    requires path != ""
    ensures Lower(Spell(path)) != ""
    ensures Lower(Spell(path))[0] == '_' <==> path[0] == '_' || path[0] == '.'
  {
  }

  /**
   Spelling a key as a variable name and reading it back gives the same key exactly when the key has no
   capital letter and no underscore before an underscore or a dot.
   */
  lemma {:induction false} EnvRoundTrip(path: string)
    ensures EnvPath(EnvName(path)) == Some(path) <==> Spellable(path)
  {
    if Spellable(path) {
      SpellRoundTrip(path);
    }
    if UnderscoresToDots(Lower(Spell(path))) == path {
      SpelledIsSpellable(path);
    }
    assert EnvName(path)[|PREFIX|..] == Spell(path);
  }

  /** The last variable at or before the end whose name stands for a key, or -1. */
  function LastFor(vars: seq<(string, string)>, key: string): (i: int)
    ensures -1 <= i < |vars|
    ensures i >= 0 ==> EnvPath(vars[i].0) == Some(key)
    ensures forall k | i < k < |vars| :: EnvPath(vars[k].0) != Some(key)
  {
    if vars == [] then -1
    else if EnvPath(vars[|vars| - 1].0) == Some(key) then |vars| - 1
    else LastFor(vars[..|vars| - 1], key)
  }

  /** The collected map holds exactly the keys some variable stands for, each with its last variable's text. */
  lemma {:induction false} CollectedOverrides(vars: seq<(string, string)>, key: string)
    ensures key in CollectEnv(vars) <==> LastFor(vars, key) >= 0
    ensures LastFor(vars, key) >= 0 ==> CollectEnv(vars)[key] == vars[LastFor(vars, key)].1
  {
    if vars != [] {
      CollectedOverrides(vars[..|vars| - 1], key);
    }
  }
}
