/** Lists of trimmed, non-empty, distinct names, as request bodies are normalized into. */
module NameLists {
  import opened Slices
  import Text

  /** Trims every entry, drops the empty ones and later repetitions. */
  function Dedupe(names: seq<string>): (out: seq<string>)
    ensures |out| <= |names|
  {
    if names == [] then []
    else
      var init, name := Dedupe(names[..|names| - 1]), Text.Trim(names[|names| - 1]);
      if name == "" || name in init then init else init + [name]
  }

  ghost predicate Clean(names: seq<string>) {
    NoDup(names) && forall n | n in names :: n != "" && Text.Trim(n) == n
  }

  /** The names a list stands for. */
  ghost predicate Lists(out: seq<string>, names: seq<string>) {
    forall n: string :: n in out <==> n != "" && exists raw | raw in names :: Text.Trim(raw) == n
  }

  lemma {:induction false} DedupeMeans(names: seq<string>)
    ensures Clean(Dedupe(names)) && Lists(Dedupe(names), names)
  {
    if names != [] {
      var init, raw := names[..|names| - 1], names[|names| - 1];
      DedupeMeans(init);
      Text.TrimIdempotent(raw);
      assert names == init + [raw];
      var before, out := Dedupe(init), Dedupe(names);
      forall n: string ensures n in out <==> n != "" && exists r | r in names :: Text.Trim(r) == n {
        if exists r | r in names :: Text.Trim(r) == n {
          var r :| r in names && Text.Trim(r) == n;
          assert r in init || r == raw;
        }
        if n in before {
          var r :| r in init && Text.Trim(r) == n;
          assert r in names;
        } else if n in out {
          assert n == Text.Trim(raw) && raw in names;
        }
      }
    }
  }

  /** A clean list is left alone. */
  lemma {:induction false} DedupeClean(names: seq<string>)
    requires Clean(names)
    ensures Dedupe(names) == names
  {
    if names != [] {
      var init, last := names[..|names| - 1], names[|names| - 1];
      assert names == init + [last];
      DedupeClean(init);
      assert last !in init;
    }
  }

  lemma DedupeIdempotent(names: seq<string>)
    ensures Dedupe(Dedupe(names)) == Dedupe(names)
  {
    DedupeMeans(names);
    DedupeClean(Dedupe(names));
  }

  lemma DedupeFirst(name: string)
    ensures Dedupe([name]) == if Text.Trim(name) == "" then [] else [Text.Trim(name)]
  {
    assert [name][..0] == [];
  }

  lemma FilterClean(names: seq<string>, keep: string -> bool)
    requires Clean(names)
    ensures Clean(Filter(names, keep))
  {
    FilterNoDup(names, keep);
  }

  /** The loop with a `seen` set and an output slice. */
  method DedupeNonEmpty(names: seq<string>) returns (out: seq<string>)
    ensures out == Dedupe(names)
  {
    var seen: set<string> := {};
    out := [];
    for i := 0 to |names|
      invariant out == Dedupe(names[..i])
      invariant forall n :: n in seen <==> n in out
    {
      assert names[..i + 1][..i] == names[..i];
      var s := Text.Trim(names[i]);
      if s == "" {
        continue;
      }
      if s in seen {
        continue;
      }
      seen := seen + {s};
      out := out + [s];
    }
    assert names[..|names|] == names;
  }
}
