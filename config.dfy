/**
 * The blacklist rule of `load_config` (tg_group_cloner.py:387-389): the
 * configured `user_ids` value is split on commas, each token is stripped, and
 * the tokens that are then all digits become the blacklisted sender ids.
 */
module Config {
  import opened Text

  /** The set the comprehension at line 389 builds from the configured value. */
  function BlacklistIds(value: string): set<nat>
  {
    TokenIds(Split(value, ","))
  }

  /** The ids that a list of comma-free tokens contributes. */
  function TokenIds(tokens: seq<string>): set<nat>
  {
    set t | t in tokens && IsDigits(Strip(t)) :: ParseDecimal(Strip(t))
  }

  /** No piece that `split` returns contains the (one-character) separator. */
  lemma {:induction false} SplitPiecesFree(s: string, c: char)
    ensures forall p :: p in Split(s, [c]) ==> c !in p
    decreases |s|
  {
    if |s| >= 1 {
      SplitPiecesFree(s[1..], c);
      if s[0] != c {
        var rest := Split(s[1..], [c]);
        assert c !in rest[0];
        assert Split(s, [c]) == [[s[0]] + rest[0]] + rest[1..];
        forall p | p in Split(s, [c]) ensures c !in p {
          if p != [s[0]] + rest[0] {
            assert p in rest[1..];
          }
        }
      }
    }
  }

  /** A string without the separator splits into itself. */
  lemma {:induction false} SplitWithoutSeparator(p: string, c: char)
    requires c !in p
    ensures Split(p, [c]) == [p]
    decreases |p|
  {
    if |p| >= 1 {
      assert p[0] in p;
      SplitWithoutSeparator(p[1..], c);
      assert p == [p[0]] + p[1..];
    }
  }

  /** A separator-free prefix followed by the separator is cut off as the first piece. */
  lemma {:induction false} SplitAtFirstSeparator(p: string, c: char, rest: string)
    requires c !in p
    ensures Split(p + [c] + rest, [c]) == [p] + Split(rest, [c])
    decreases |p|
  {
    var s := p + [c] + rest;
    if |p| == 0 {
      assert s == [c] + rest;
      assert s[1..] == rest;
    } else {
      assert s[0] == p[0] && p[0] != c;
      assert s[1..] == p[1..] + [c] + rest;
      SplitAtFirstSeparator(p[1..], c, rest);
      assert [p[0]] + p[1..] == p;
    }
  }

  /** Splitting a join of separator-free pieces gives the pieces back. */
  lemma {:induction false} SplitJoinRoundTrip(parts: seq<string>, c: char)
    requires |parts| >= 1
    requires forall i :: 0 <= i < |parts| ==> c !in parts[i]
    ensures Split(Join(parts, [c]), [c]) == parts
    decreases |parts|
  {
    if |parts| == 1 {
      SplitWithoutSeparator(parts[0], c);
    } else {
      SplitJoinRoundTrip(parts[1..], c);
      SplitAtFirstSeparator(parts[0], c, Join(parts[1..], [c]));
      assert [parts[0]] + parts[1..] == parts;
    }
  }

  /**
   * The blacklist of a comma-joined token list is exactly the set of
   * `int(t.strip())` over its tokens `t` whose stripped form is all digits;
   * every other token is ignored.
   */
  lemma BlacklistOfTokens(tokens: seq<string>)
    requires |tokens| >= 1
    requires forall i :: 0 <= i < |tokens| ==> ',' !in tokens[i]
    ensures BlacklistIds(Join(tokens, ",")) == TokenIds(tokens)
  {
    SplitJoinRoundTrip(tokens, ',');
  }

  /** Every configured value is such a join: of the pieces its own `split` cuts out. */
  lemma EveryValueIsTokens(value: string)
    ensures var tokens := Split(value, ",");
      && (forall i :: 0 <= i < |tokens| ==> ',' !in tokens[i])
      && Join(tokens, ",") == value
      && BlacklistIds(value) == TokenIds(tokens)
  {
    SplitPiecesFree(value, ',');
    JoinSplitRoundTrip(value, ",");
  }

  /** Writing ids as `str(id)` joined by commas and reading them back yields exactly those ids. */
  lemma BlacklistRoundTrip(ids: seq<nat>)
    ensures BlacklistIds(Join(seq(|ids|, i requires 0 <= i < |ids| => ShowDecimal(ids[i])), ",")) == set id | id in ids
  {
    var tokens := seq(|ids|, i requires 0 <= i < |ids| => ShowDecimal(ids[i]));
    if |ids| == 0 {
      assert Join(tokens, ",") == [];
      assert Split([], ",") == [[]];
      assert !IsDigits(Strip([]));
      assert BlacklistIds([]) == {};
    } else {
      forall i | 0 <= i < |tokens| ensures ',' !in tokens[i] {
        assert IsDigits(tokens[i]);
      }
      BlacklistOfTokens(tokens);
      forall id | id in ids ensures id in TokenIds(tokens) {
        var i :| 0 <= i < |ids| && ids[i] == id;
        StripShow(id);
        ParseShowRoundTrip(id);
        assert tokens[i] in tokens;
      }
      forall x | x in TokenIds(tokens) ensures x in ids {
        var t :| t in tokens && IsDigits(Strip(t)) && ParseDecimal(Strip(t)) == x;
        var i :| 0 <= i < |tokens| && tokens[i] == t;
        StripShow(ids[i]);
        ParseShowRoundTrip(ids[i]);
      }
    }
  }
}
