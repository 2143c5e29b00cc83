/**
 * The record file format: one line per employee, thirteen fields joined by
 * '|' in a fixed order, with no escaping. Saving maps every record to its
 * line (SalvarFuncionarios); loading splits every line on '|' and keeps the
 * lines with exactly thirteen fields (ObterFuncionarios). The file itself is
 * its sequence of lines, or None while it does not exist.
 */
module LineCodec {
  import opened Records

  const Separator: char := '|'

  /** Number of fields in a line of the file. */
  const FieldCount: nat := 13

  /**
   * `s.Split('|')`: the pieces between separators, empty ones included, so
   * a string with k separators has k + 1 pieces and none of them holds one.
   */
  function Split(s: string): (pieces: seq<string>)
    ensures |pieces| >= 1
    ensures forall i :: 0 <= i < |pieces| ==> Separator !in pieces[i]
  {
    if s == [] then [""]
    else
      var rest := Split(s[1..]);
      if s[0] == Separator then [""] + rest
      else [[s[0]] + rest[0]] + rest[1..]
  }

  /** The pieces written one after the other with a separator between neighbours. */
  function Join(pieces: seq<string>): string
    requires |pieces| >= 1
  {
    if |pieces| == 1 then pieces[0] else pieces[0] + [Separator] + Join(pieces[1..])
  }

  /** The thirteen fields of a record in file order (Nome, CPF, ..., CEP). */
  function Fields(f: Funcionario): (fs: seq<string>)
    ensures |fs| == FieldCount
  {
    [f.nome, f.cpf, f.ctps, f.rg, f.funcao, f.setor, f.sala, f.telefone,
     f.endereco.uf, f.endereco.cidade, f.endereco.bairro, f.endereco.numero, f.endereco.cep]
  }

  /** The record whose fields, in file order, are `dados`. */
  function FromFields(dados: seq<string>): (f: Funcionario)
    requires |dados| == FieldCount
    ensures Fields(f) == dados
  {
    Funcionario(dados[0], dados[1], dados[2], dados[3], dados[4], dados[5], dados[6], dados[7],
                Endereco(dados[8], dados[9], dados[10], dados[11], dados[12]))
  }

  /** A record survives a save and a load: none of its fields holds a separator. */
  predicate Storable(f: Funcionario) {
    forall k :: 0 <= k < FieldCount ==> Separator !in Fields(f)[k]
  }

  /** The line SalvarFuncionarios writes for one record. */
  function Encode(f: Funcionario): string {
    Join(Fields(f))
  }

  /** A line that ObterFuncionarios turns into a record. */
  predicate WellFormed(line: string) {
    |Split(line)| == FieldCount
  }

  /** One line as ObterFuncionarios reads it: a record, or None for a skipped line. */
  function Decode(line: string): (r: Option<Funcionario>)
    ensures r.Some? <==> WellFormed(line)
    ensures r.Some? ==> Fields(r.value) == Split(line)
  {
    var dados := Split(line);
    if |dados| == FieldCount then Some(FromFields(dados)) else None
  }

  /** SalvarFuncionarios: one line per record, in list order. */
  function EncodeAll(rs: seq<Funcionario>): (lines: seq<string>)
    ensures |lines| == |rs|
    ensures forall i :: 0 <= i < |rs| ==> lines[i] == Encode(rs[i])
  {
    seq(|rs|, i requires 0 <= i < |rs| => Encode(rs[i]))
  }

  /** The records that the lines give, in file order; malformed lines add nothing. */
  function DecodeLines(lines: seq<string>): seq<Funcionario>
  {
    if lines == [] then []
    else
      var last := lines[|lines| - 1];
      DecodeLines(lines[..|lines| - 1]) + (if WellFormed(last) then [Decode(last).value] else [])
  }

  /** ObterFuncionarios: a missing file is an empty roster. */
  function DecodeFile(file: Option<seq<string>>): seq<Funcionario> {
    match file
    case None => []
    case Some(lines) => DecodeLines(lines)
  }

  /** The records that survive a save and a load, in order. */
  function StorableOnly(rs: seq<Funcionario>): seq<Funcionario>
  {
    if rs == [] then []
    else
      var last := rs[|rs| - 1];
      StorableOnly(rs[..|rs| - 1]) + (if Storable(last) then [last] else [])
  }

  /** The lines that loading does not skip, in order. */
  function WellFormedOnly(lines: seq<string>): seq<string>
  {
    if lines == [] then []
    else
      var last := lines[|lines| - 1];
      WellFormedOnly(lines[..|lines| - 1]) + (if WellFormed(last) then [last] else [])
  }

  // ----- Split and Join -----

  /** A string without separators is one piece. */
  lemma {:induction false} SplitNoSeparator(s: string)
    requires Separator !in s
    ensures Split(s) == [s]
  {
    if s != [] {
      assert Separator !in s[1..] by {
        forall i | 0 <= i < |s[1..]| ensures s[1..][i] != Separator {
          assert s[1..][i] == s[i + 1];
        }
      }
      SplitNoSeparator(s[1..]);
      assert s == [s[0]] + s[1..];
    }
  }

  /** Splitting at a separator splits the pieces. */
  lemma {:induction false} SplitAround(a: string, b: string)
    ensures Split(a + [Separator] + b) == Split(a) + Split(b)
  {
    if a == [] {
      assert a + [Separator] + b == [Separator] + b;
      assert ([Separator] + b)[1..] == b;
    } else {
      assert (a + [Separator] + b)[1..] == a[1..] + [Separator] + b;
      SplitAround(a[1..], b);
    }
  }

  /** Split undoes Join when no piece holds a separator. */
  lemma {:induction false} SplitJoin(pieces: seq<string>)
    requires |pieces| >= 1
    requires forall i :: 0 <= i < |pieces| ==> Separator !in pieces[i]
    ensures Split(Join(pieces)) == pieces
  {
    SplitNoSeparator(pieces[0]);
    if |pieces| > 1 {
      SplitJoin(pieces[1..]);
      SplitAround(pieces[0], Join(pieces[1..]));
      assert [pieces[0]] + pieces[1..] == pieces;
    }
  }

  /** A piece that holds a separator adds at least one more piece. */
  lemma SplitWithSeparator(s: string)
    requires Separator in s
    ensures |Split(s)| >= 2
  {
    var i :| 0 <= i < |s| && s[i] == Separator;
    assert s == s[..i] + [Separator] + s[i + 1..];
    SplitAround(s[..i], s[i + 1..]);
  }

  /** Joining never loses pieces; a piece holding a separator gives extra ones. */
  lemma {:induction false} SplitJoinCount(pieces: seq<string>)
    requires |pieces| >= 1
    ensures |Split(Join(pieces))| >= |pieces|
    ensures (exists i :: 0 <= i < |pieces| && Separator in pieces[i]) ==> |Split(Join(pieces))| > |pieces|
  {
    if Separator in pieces[0] {
      SplitWithSeparator(pieces[0]);
    }
    if |pieces| > 1 {
      SplitJoinCount(pieces[1..]);
      SplitAround(pieces[0], Join(pieces[1..]));
      if exists i :: 0 <= i < |pieces| && Separator in pieces[i] {
        var i :| 0 <= i < |pieces| && Separator in pieces[i];
        if i > 0 {
          assert Separator in pieces[1..][i - 1];
        }
      }
    }
  }

  /** Join undoes Split: every line is the join of its pieces. */
  lemma {:induction false} JoinSplit(s: string)
    ensures Join(Split(s)) == s
  {
    if s != [] {
      var rest := Split(s[1..]);
      JoinSplit(s[1..]);
      if s[0] == Separator {
        assert ([""] + rest)[1..] == rest;
      } else if |rest| > 1 {
        assert ([[s[0]] + rest[0]] + rest[1..])[1..] == rest[1..];
        assert s == [s[0]] + s[1..];
      } else {
        assert s == [s[0]] + s[1..];
      }
    }
  }

  // ----- One line -----

  /**
   * Decoding the line of a record gives back the record exactly when none
   * of its fields holds '|'; otherwise the line has more than thirteen
   * pieces and loading skips it.
   */
  lemma DecodeEncode(f: Funcionario)
    ensures Decode(Encode(f)) == if Storable(f) then Some(f) else None
  {
    var fs := Fields(f);
    if Storable(f) {
      SplitJoin(fs);
      assert FromFields(fs) == f;
    } else {
      var k :| 0 <= k < FieldCount && Separator in fs[k];
      SplitJoinCount(fs);
    }
  }

  /** A line that loads gives a storable record whose line is the line itself. */
  lemma EncodeDecode(line: string)
    requires WellFormed(line)
    ensures Storable(Decode(line).value)
    ensures Encode(Decode(line).value) == line
  {
    JoinSplit(line);
  }

  // ----- Whole files -----

  /** Loading a concatenation of files is concatenating their loads: file order is kept. */
  lemma {:induction false} DecodeLinesAppend(a: seq<string>, b: seq<string>)
    ensures DecodeLines(a + b) == DecodeLines(a) + DecodeLines(b)
    decreases |b|
  {
    if b == [] {
      assert a + b == a;
    } else {
      var last := b[|b| - 1];
      assert (a + b)[..|a + b| - 1] == a + b[..|b| - 1];
      DecodeLinesAppend(a, b[..|b| - 1]);
    }
  }

  /** Every loaded record is storable: it came from a line with exactly thirteen pieces. */
  lemma {:induction false} LoadedAreStorable(lines: seq<string>)
    ensures forall i :: 0 <= i < |DecodeLines(lines)| ==> Storable(DecodeLines(lines)[i])
  {
    if lines != [] {
      LoadedAreStorable(lines[..|lines| - 1]);
      var last := lines[|lines| - 1];
      if WellFormed(last) {
        EncodeDecode(last);
      }
    }
  }

  /** Loading yields one record per well-formed line: as many records as such lines. */
  lemma {:induction false} LoadCount(lines: seq<string>)
    ensures |DecodeLines(lines)| == |WellFormedOnly(lines)| <= |lines|
  {
    if lines != [] {
      LoadCount(lines[..|lines| - 1]);
    }
  }

  /** Loading the saved file gives back exactly the records that can be stored, in order. */
  lemma {:induction false} LoadAfterSave(rs: seq<Funcionario>)
    ensures DecodeLines(EncodeAll(rs)) == StorableOnly(rs)
  {
    if rs != [] {
      var init := rs[..|rs| - 1];
      assert EncodeAll(rs)[..|rs| - 1] == EncodeAll(init);
      LoadAfterSave(init);
      DecodeEncode(rs[|rs| - 1]);
    }
  }

  /** A list of storable records survives a save and a load unchanged. */
  lemma {:induction false} StorableOnlyKeeps(rs: seq<Funcionario>)
    requires forall i :: 0 <= i < |rs| ==> Storable(rs[i])
    ensures StorableOnly(rs) == rs
  {
    if rs != [] {
      StorableOnlyKeeps(rs[..|rs| - 1]);
    }
  }

  /**
   * Loading and saving again rewrites the file as its well-formed lines,
   * unchanged and in order: only the malformed lines are dropped.
   */
  lemma {:induction false} SaveAfterLoad(lines: seq<string>)
    ensures EncodeAll(DecodeLines(lines)) == WellFormedOnly(lines)
  {
    if lines != [] {
      var init := lines[..|lines| - 1];
      var last := lines[|lines| - 1];
      SaveAfterLoad(init);
      if WellFormed(last) {
        EncodeDecode(last);
        assert EncodeAll(DecodeLines(lines)) == EncodeAll(DecodeLines(init)) + [Encode(Decode(last).value)];
      } else {
        assert DecodeLines(lines) == DecodeLines(init);
      }
    }
  }

  /** Load, save, load gives the same roster as the first load (the rewrite is idempotent). */
  lemma ReloadIsStable(lines: seq<string>)
    ensures DecodeLines(EncodeAll(DecodeLines(lines))) == DecodeLines(lines)
  {
    LoadAfterSave(DecodeLines(lines));
    LoadedAreStorable(lines);
    StorableOnlyKeeps(DecodeLines(lines));
  }
}
