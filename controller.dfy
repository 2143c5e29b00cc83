/**
 * The employee roster service (FuncionarioController). Its only state is the
 * file funcionarios.txt; every handler loads the whole roster, checks,
 * changes the list and, when it changes something, saves the whole roster.
 * Lookups compare the raw CPF string as given: the CPF validation strips
 * formatting, the key comparison does not, so "529.982.247-25" and
 * "52998224725" are different keys.
 */
module Controller {
  import opened Records
  import opened Cpf
  import opened LineCodec

  /** The HTTP results the handlers produce. */
  datatype Response<T> =
    | Ok(body: T)
    | Created(body: T)
    | BadRequest(message: string)
    | NotFound
    | Conflict(message: string)

  // ----- The list logic of the handlers -----

  /** `funcionarios.FirstOrDefault(f => f.CPF == cpf)`, as the index of the record found. */
  function FindFirst(rs: seq<Funcionario>, cpf: string): (k: Option<nat>)
    ensures k.Some? ==> k.value < |rs| && rs[k.value].cpf == cpf
    ensures k.Some? ==> forall j :: 0 <= j < k.value ==> rs[j].cpf != cpf
    ensures k.None? <==> forall j :: 0 <= j < |rs| ==> rs[j].cpf != cpf
  {
    if rs == [] then None
    else if rs[0].cpf == cpf then Some(0)
    else
      match FindFirst(rs[1..], cpf)
      case None => None
      case Some(k) => Some(k + 1)
  }

  /** `funcionarios.Any(f => f.CPF == cpf)`. */
  predicate AnyWithCpf(rs: seq<Funcionario>, cpf: string)
    ensures AnyWithCpf(rs, cpf) <==> FindFirst(rs, cpf).Some?
  {
    exists i :: 0 <= i < |rs| && rs[i].cpf == cpf
  }

  /** The CPF column of a roster. */
  function Cpfs(rs: seq<Funcionario>): (cs: seq<string>)
    ensures |cs| == |rs|
    ensures forall i :: 0 <= i < |rs| ==> cs[i] == rs[i].cpf
  {
    seq(|rs|, i requires 0 <= i < |rs| => rs[i].cpf)
  }

  /** No two records share a CPF string. */
  predicate DistinctCpfs(rs: seq<Funcionario>) {
    forall i, j :: 0 <= i < j < |rs| ==> rs[i].cpf != rs[j].cpf
  }

  /** The payload's thirteen fields in file order; absent (null) ones are None. */
  function PayloadFields(dto: FuncionarioDto): (ps: seq<Option<string>>)
    ensures |ps| == FieldCount
  {
    [dto.nome, dto.cpf, dto.ctps, dto.rg, dto.funcao, dto.setor, dto.sala, dto.telefone,
     dto.endereco.uf, dto.endereco.cidade, dto.endereco.bairro, dto.endereco.numero, dto.endereco.cep]
  }

  /**
   * The record Adicionar builds from a payload. A null field is kept null in
   * memory and written as an empty field; here it is the empty string.
   */
  function NovoFuncionario(dto: FuncionarioDto): (f: Funcionario)
    requires dto.cpf.Some?
    ensures f.cpf == dto.cpf.value
    ensures forall k :: 0 <= k < FieldCount ==> Fields(f)[k] == OrElse(PayloadFields(dto)[k], "")
  {
    Funcionario(
      OrElse(dto.nome, ""), dto.cpf.value, OrElse(dto.ctps, ""), OrElse(dto.rg, ""),
      OrElse(dto.funcao, ""), OrElse(dto.setor, ""), OrElse(dto.sala, ""), OrElse(dto.telefone, ""),
      Endereco(OrElse(dto.endereco.uf, ""), OrElse(dto.endereco.cidade, ""), OrElse(dto.endereco.bairro, ""),
               OrElse(dto.endereco.numero, ""), OrElse(dto.endereco.cep, "")))
  }

  /**
   * Atualizar's field-by-field merge: every field except the CPF takes the
   * payload's value when present and keeps the stored one otherwise.
   */
  function Merge(f: Funcionario, dto: FuncionarioDto): (g: Funcionario)
    ensures g.cpf == f.cpf
    ensures forall k :: 0 <= k < FieldCount && k != 1 ==> Fields(g)[k] == OrElse(PayloadFields(dto)[k], Fields(f)[k])
  {
    f.(nome := OrElse(dto.nome, f.nome),
       ctps := OrElse(dto.ctps, f.ctps),
       rg := OrElse(dto.rg, f.rg),
       funcao := OrElse(dto.funcao, f.funcao),
       setor := OrElse(dto.setor, f.setor),
       sala := OrElse(dto.sala, f.sala),
       telefone := OrElse(dto.telefone, f.telefone),
       endereco := f.endereco.(
         uf := OrElse(dto.endereco.uf, f.endereco.uf),
         cidade := OrElse(dto.endereco.cidade, f.endereco.cidade),
         bairro := OrElse(dto.endereco.bairro, f.endereco.bairro),
         numero := OrElse(dto.endereco.numero, f.endereco.numero),
         cep := OrElse(dto.endereco.cep, f.endereco.cep)))
  }

  /** `funcionarios.Remove(funcionario)` for the element at index i. */
  function RemoveAt(rs: seq<Funcionario>, i: nat): (r: seq<Funcionario>)
    requires i < |rs|
    ensures |r| == |rs| - 1
    ensures forall j :: 0 <= j < i ==> r[j] == rs[j]
    ensures forall j :: i <= j < |r| ==> r[j] == rs[j + 1]
  {
    rs[..i] + rs[i + 1..]
  }

  /** A payload none of whose present fields other than the CPF holds '|'. */
  predicate StorablePayloadExceptCpf(dto: FuncionarioDto) {
    forall k :: 0 <= k < FieldCount && k != 1 && PayloadFields(dto)[k].Some? ==> Separator !in PayloadFields(dto)[k].value
  }

  // ----- Properties of the list logic -----

  /** A record is determined by its thirteen fields. */
  lemma FieldsInjective(f: Funcionario, g: Funcionario)
    requires forall k :: 0 <= k < FieldCount ==> Fields(f)[k] == Fields(g)[k]
    ensures f == g
  {
    assert Fields(f) == Fields(g);
    assert FromFields(Fields(f)) == f && FromFields(Fields(g)) == g;
  }

  /** A payload with every field absent changes nothing. */
  lemma MergeEmptyPayload(f: Funcionario, dto: FuncionarioDto)
    requires forall k :: 0 <= k < FieldCount && k != 1 ==> PayloadFields(dto)[k].None?
    ensures Merge(f, dto) == f
  {
    FieldsInjective(Merge(f, dto), f);
  }

  /** Applying the same payload twice is applying it once. */
  lemma MergeIdempotent(f: Funcionario, dto: FuncionarioDto)
    ensures Merge(Merge(f, dto), dto) == Merge(f, dto)
  {
    FieldsInjective(Merge(Merge(f, dto), dto), Merge(f, dto));
  }

  /** A storable record merged with a storable payload stays storable. */
  lemma MergeStorable(f: Funcionario, dto: FuncionarioDto)
    requires Storable(f)
    ensures Storable(Merge(f, dto)) <==> StorablePayloadExceptCpf(dto)
  {
    var g := Merge(f, dto);
    if StorablePayloadExceptCpf(dto) {
      forall k | 0 <= k < FieldCount ensures Separator !in Fields(g)[k] {
        assert Separator !in Fields(f)[k];
        if k == 1 {
          assert Fields(g)[1] == Fields(f)[1];
        } else if PayloadFields(dto)[k].Some? {
          assert Fields(g)[k] == PayloadFields(dto)[k].value;
        } else {
          assert Fields(g)[k] == Fields(f)[k];
        }
      }
    }
    if Storable(g) {
      forall k | 0 <= k < FieldCount && k != 1 && PayloadFields(dto)[k].Some? ensures Separator !in PayloadFields(dto)[k].value {
        assert Fields(g)[k] == PayloadFields(dto)[k].value;
      }
    }
  }

  /** The record just appended under a fresh CPF is the one a lookup finds. */
  lemma {:induction false} FindAppended(rs: seq<Funcionario>, f: Funcionario)
    requires !AnyWithCpf(rs, f.cpf)
    ensures FindFirst(rs + [f], f.cpf) == Some(|rs|)
  {
    if rs != [] {
      assert (rs + [f])[1..] == rs[1..] + [f];
      assert !AnyWithCpf(rs[1..], f.cpf) by {
        forall i | 0 <= i < |rs[1..]| ensures rs[1..][i].cpf != f.cpf {
          assert rs[1..][i] == rs[i + 1];
        }
      }
      FindAppended(rs[1..], f);
    }
  }

  /** Appending a record under a fresh CPF keeps the CPFs pairwise distinct. */
  lemma AppendKeepsDistinct(rs: seq<Funcionario>, f: Funcionario)
    requires DistinctCpfs(rs) && !AnyWithCpf(rs, f.cpf)
    ensures DistinctCpfs(rs + [f])
  {
    forall i, j | 0 <= i < j < |rs + [f]| ensures (rs + [f])[i].cpf != (rs + [f])[j].cpf {
      if j == |rs| {
        assert (rs + [f])[i] == rs[i];
      }
    }
  }

  /**
   * After removing the first record with a CPF, a lookup of that CPF finds
   * nothing exactly when no other record had it.
   */
  lemma FindAfterRemove(rs: seq<Funcionario>, cpf: string)
    requires FindFirst(rs, cpf).Some?
    ensures FindFirst(RemoveAt(rs, FindFirst(rs, cpf).value), cpf).None?
        <==> forall j :: 0 <= j < |rs| && j != FindFirst(rs, cpf).value ==> rs[j].cpf != cpf
  {
    var i := FindFirst(rs, cpf).value;
    var r := RemoveAt(rs, i);
    if forall j :: 0 <= j < |rs| && j != i ==> rs[j].cpf != cpf {
      forall j | 0 <= j < |r| ensures r[j].cpf != cpf {
        if j >= i {
          assert r[j] == rs[j + 1];
        }
      }
    } else {
      var j :| 0 <= j < |rs| && j != i && rs[j].cpf == cpf;
      assert j > i;
      assert r[j - 1] == rs[j];
    }
  }

  /** Removing a record keeps the CPFs pairwise distinct. */
  lemma RemoveKeepsDistinct(rs: seq<Funcionario>, i: nat)
    requires i < |rs| && DistinctCpfs(rs)
    ensures DistinctCpfs(RemoveAt(rs, i))
  {
    var r := RemoveAt(rs, i);
    forall a, b | 0 <= a < b < |r| ensures r[a].cpf != r[b].cpf {
      var a' := if a < i then a else a + 1;
      var b' := if b < i then b else b + 1;
      assert r[a] == rs[a'] && r[b] == rs[b'];
    }
  }

  /** Merging a record in place keeps the CPF column, so distinct CPFs stay distinct. */
  lemma UpdateKeepsCpfs(rs: seq<Funcionario>, i: nat, dto: FuncionarioDto)
    requires i < |rs|
    ensures Cpfs(rs[i := Merge(rs[i], dto)]) == Cpfs(rs)
    ensures DistinctCpfs(rs) ==> DistinctCpfs(rs[i := Merge(rs[i], dto)])
  {
    var u := rs[i := Merge(rs[i], dto)];
    assert forall j :: 0 <= j < |rs| ==> u[j].cpf == rs[j].cpf;
  }

  /** Filtering storable records distributes over concatenation. */
  lemma {:induction false} StorableOnlyAppend(a: seq<Funcionario>, b: seq<Funcionario>)
    ensures StorableOnly(a + b) == StorableOnly(a) + StorableOnly(b)
    decreases |b|
  {
    if b == [] {
      assert a + b == a;
    } else {
      assert (a + b)[..|a + b| - 1] == a + b[..|b| - 1];
      StorableOnlyAppend(a, b[..|b| - 1]);
    }
  }

  /** Filtering keeps pairwise distinct CPFs distinct. */
  lemma {:induction false} StorableOnlyKeepsDistinct(rs: seq<Funcionario>)
    requires DistinctCpfs(rs)
    ensures DistinctCpfs(StorableOnly(rs))
    ensures forall i :: 0 <= i < |StorableOnly(rs)| ==> AnyWithCpf(rs, StorableOnly(rs)[i].cpf)
  {
    if rs != [] {
      var init := rs[..|rs| - 1];
      var last := rs[|rs| - 1];
      StorableOnlyKeepsDistinct(init);
      var s := StorableOnly(init);
      forall i | 0 <= i < |s| ensures AnyWithCpf(rs, s[i].cpf) {
        var j :| 0 <= j < |init| && init[j].cpf == s[i].cpf;
        assert rs[j] == init[j];
      }
      if Storable(last) {
        assert !AnyWithCpf(s, last.cpf) by {
          forall i | 0 <= i < |s| ensures s[i].cpf != last.cpf {
            var j :| 0 <= j < |init| && init[j].cpf == s[i].cpf;
            assert rs[j] == init[j];
          }
        }
        AppendKeepsDistinct(s, last);
        assert rs[|rs| - 1] == last;
      }
    }
  }

  /**
   * Saving a roster whose records are storable except perhaps the one at i,
   * and loading it again: the record comes back if it is storable and is
   * missing otherwise.
   */
  lemma ReloadAfterUpdate(rs: seq<Funcionario>, i: nat, g: Funcionario)
    requires i < |rs|
    requires forall j :: 0 <= j < |rs| ==> Storable(rs[j])
    ensures StorableOnly(rs[i := g]) == if Storable(g) then rs[i := g] else RemoveAt(rs, i)
  {
    var a, b := rs[..i], rs[i + 1..];
    assert rs[i := g] == a + [g] + b;
    assert forall j :: 0 <= j < |a| ==> Storable(a[j]) by {
      forall j | 0 <= j < |a| ensures Storable(a[j]) { assert a[j] == rs[j]; }
    }
    assert forall j :: 0 <= j < |b| ==> Storable(b[j]) by {
      forall j | 0 <= j < |b| ensures Storable(b[j]) { assert b[j] == rs[i + 1 + j]; }
    }
    StorableOnlyKeeps(a);
    StorableOnlyKeeps(b);
    StorableOnlyAppend(a + [g], b);
    StorableOnlyAppend(a, [g]);
    assert StorableOnly([g]) == (if Storable(g) then [g] else []) by {
      assert [g][..0] == [];
    }
    if !Storable(g) {
      assert a + [] == a;
    }
  }

  /** Saving a storable roster plus one new record and loading it again. */
  lemma ReloadAfterAppend(rs: seq<Funcionario>, f: Funcionario)
    requires forall j :: 0 <= j < |rs| ==> Storable(rs[j])
    ensures StorableOnly(rs + [f]) == rs + (if Storable(f) then [f] else [])
  {
    assert (rs + [f])[..|rs|] == rs;
    StorableOnlyKeeps(rs);
  }

  /**
   * What a load finds after Adicionar appended a record under a fresh CPF
   * to a loaded roster and saved it.
   */
  lemma AppendOutcome(rs: seq<Funcionario>, f: Funcionario)
    requires forall j :: 0 <= j < |rs| ==> Storable(rs[j])
    requires !AnyWithCpf(rs, f.cpf)
    ensures StorableOnly(rs + [f]) == rs + (if Storable(f) then [f] else [])
    ensures DistinctCpfs(rs) ==> DistinctCpfs(StorableOnly(rs + [f]))
  {
    ReloadAfterAppend(rs, f);
    if DistinctCpfs(rs) {
      AppendKeepsDistinct(rs, f);
      StorableOnlyKeepsDistinct(rs + [f]);
    }
  }

  // ----- The controller -----

  class FuncionarioController {
    /** funcionarios.txt: None while the file does not exist, otherwise its lines. */
    var arquivo: Option<seq<string>>

    constructor (arquivo: Option<seq<string>>)
      ensures this.arquivo == arquivo
    {
      this.arquivo := arquivo;
    }

    /** The roster that loading the file gives now. */
    function Funcionarios(): seq<Funcionario>
      reads this
    {
      DecodeFile(arquivo)
    }

    /**
     * ObterFuncionarios: reads the file line by line, keeps the decoded
     * lines with exactly thirteen fields and counts the others (each of
     * which the source reports on the console).
     */
    method ObterFuncionarios() returns (funcionarios: seq<Funcionario>, ignoradas: nat)
      ensures funcionarios == Funcionarios()
      ensures arquivo.None? ==> funcionarios == [] && ignoradas == 0
      ensures arquivo.Some? ==> |funcionarios| + ignoradas == |arquivo.value|
      ensures arquivo.Some? ==> EncodeAll(funcionarios) == WellFormedOnly(arquivo.value)
      ensures forall i :: 0 <= i < |funcionarios| ==> Storable(funcionarios[i])
    {
      funcionarios, ignoradas := [], 0;
      if arquivo.Some? {
        var linhas := arquivo.value;
        for k := 0 to |linhas|
          invariant funcionarios == DecodeLines(linhas[..k])
          invariant |funcionarios| + ignoradas == k
        {
          assert linhas[..k + 1][..k] == linhas[..k];
          var dados := Split(linhas[k]);
          if |dados| == FieldCount {
            funcionarios := funcionarios + [FromFields(dados)];
          } else {
            ignoradas := ignoradas + 1;
          }
        }
        assert linhas[..|linhas|] == linhas;
        SaveAfterLoad(linhas);
        LoadedAreStorable(linhas);
      }
    }

    /** SalvarFuncionarios: rewrites the whole file, one line per record in list order. */
    method SalvarFuncionarios(funcionarios: seq<Funcionario>)
      modifies this
      ensures arquivo == Some(EncodeAll(funcionarios))
      ensures Funcionarios() == StorableOnly(funcionarios)
    {
      arquivo := Some(EncodeAll(funcionarios));
      LoadAfterSave(funcionarios);
    }

    /** ObterTodos (GET): the whole roster. */
    method ObterTodos() returns (r: Response<seq<Funcionario>>)
      ensures r == Ok(Funcionarios())
    {
      var funcionarios, _ := ObterFuncionarios();
      r := Ok(funcionarios);
    }

    /** ObterPorCPF (GET {cpf}): the first record whose CPF string equals `cpf`. */
    method ObterPorCpf(cpf: string) returns (r: Response<Funcionario>)
      ensures !CpfValid(cpf) ==> r == BadRequest("cpf nao encontrado.")
      ensures CpfValid(cpf) && FindFirst(Funcionarios(), cpf).None? ==> r == NotFound
      ensures CpfValid(cpf) && FindFirst(Funcionarios(), cpf).Some? ==>
                r == Ok(Funcionarios()[FindFirst(Funcionarios(), cpf).value])
      ensures r.Ok? ==> r.body.cpf == cpf
    {
      var valido := VerificarCpf(cpf);
      if !valido {
        return BadRequest("cpf nao encontrado.");
      }
      var funcionarios, _ := ObterFuncionarios();
      var achado := FindFirst(funcionarios, cpf);
      if achado.None? {
        return NotFound;
      }
      r := Ok(funcionarios[achado.value]);
    }

    /**
     * Adicionar (POST): rejects a missing payload and an invalid CPF before
     * loading, rejects a CPF string already present, and otherwise appends
     * the new record and saves.
     */
    method Adicionar(dto: Option<FuncionarioDto>) returns (r: Response<Funcionario>)
      requires dto.Some? ==> dto.value.cpf.Some?
      modifies this
      ensures dto.None? ==> r == BadRequest("dados invalidos.") && arquivo == old(arquivo)
      ensures dto.Some? && !CpfValid(dto.value.cpf.value) ==>
                r == BadRequest("cpf invalido.") && arquivo == old(arquivo)
      ensures dto.Some? && CpfValid(dto.value.cpf.value) && AnyWithCpf(old(Funcionarios()), dto.value.cpf.value) ==>
                r == Conflict("ja existe um funcionario com esse cpf, digite outro.") && arquivo == old(arquivo)
      ensures dto.Some? && CpfValid(dto.value.cpf.value) && !AnyWithCpf(old(Funcionarios()), dto.value.cpf.value) ==>
                && r == Created(NovoFuncionario(dto.value))
                && arquivo == Some(EncodeAll(old(Funcionarios()) + [NovoFuncionario(dto.value)]))
      ensures r.Created? ==> Funcionarios() == old(Funcionarios()) + (if Storable(r.body) then [r.body] else [])
      ensures r.Created? && DistinctCpfs(old(Funcionarios())) ==> DistinctCpfs(Funcionarios())
    {
      if dto.None? {
        return BadRequest("dados invalidos.");
      }
      var payload := dto.value;
      var valido := VerificarCpf(payload.cpf.value);
      if !valido {
        return BadRequest("cpf invalido.");
      }
      var funcionarios, _ := ObterFuncionarios();
      if AnyWithCpf(funcionarios, payload.cpf.value) {
        return Conflict("ja existe um funcionario com esse cpf, digite outro.");
      }
      var funcionario := NovoFuncionario(payload);
      AppendOutcome(funcionarios, funcionario);
      funcionarios := funcionarios + [funcionario];
      SalvarFuncionarios(funcionarios);
      r := Created(funcionario);
    }

    /**
     * Atualizar (PUT {cpf}): merges the payload into the first record whose
     * CPF string equals `cpf` and saves; the CPF itself never changes.
     */
    method Atualizar(cpf: string, dto: FuncionarioDto) returns (r: Response<Funcionario>)
      modifies this
      ensures !CpfValid(cpf) ==> r == BadRequest("CPF inválido.") && arquivo == old(arquivo)
      ensures CpfValid(cpf) && FindFirst(old(Funcionarios()), cpf).None? ==> r == NotFound && arquivo == old(arquivo)
      ensures CpfValid(cpf) && FindFirst(old(Funcionarios()), cpf).Some? ==>
                var i := FindFirst(old(Funcionarios()), cpf).value;
                var novo := Merge(old(Funcionarios())[i], dto);
                && r == Ok(novo)
                && arquivo == Some(EncodeAll(old(Funcionarios())[i := novo]))
                && Funcionarios() == if Storable(novo) then old(Funcionarios())[i := novo]
                                     else RemoveAt(old(Funcionarios()), i)
      ensures r.Ok? ==> r.body.cpf == cpf && (Storable(r.body) <==> StorablePayloadExceptCpf(dto))
      ensures r.Ok? && StorablePayloadExceptCpf(dto) ==> Cpfs(Funcionarios()) == Cpfs(old(Funcionarios()))
    {
      var valido := VerificarCpf(cpf);
      if !valido {
        return BadRequest("CPF inválido.");
      }
      var funcionarios, _ := ObterFuncionarios();
      var achado := FindFirst(funcionarios, cpf);
      if achado.None? {
        return NotFound;
      }
      var i := achado.value;
      var novo := Merge(funcionarios[i], dto);
      MergeStorable(funcionarios[i], dto);
      ReloadAfterUpdate(funcionarios, i, novo);
      UpdateKeepsCpfs(funcionarios, i, dto);
      funcionarios := funcionarios[i := novo];
      SalvarFuncionarios(funcionarios);
      r := Ok(novo);
    }

    /**
     * Remover (DELETE {cpf}): removes the first record whose CPF string
     * equals `cpf` and saves; the other records keep their order.
     */
    method Remover(cpf: string) returns (r: Response<Funcionario>)
      modifies this
      ensures !CpfValid(cpf) ==> r == BadRequest("CPF inválido.") && arquivo == old(arquivo)
      ensures CpfValid(cpf) && FindFirst(old(Funcionarios()), cpf).None? ==> r == NotFound && arquivo == old(arquivo)
      ensures CpfValid(cpf) && FindFirst(old(Funcionarios()), cpf).Some? ==>
                var i := FindFirst(old(Funcionarios()), cpf).value;
                && r == Ok(old(Funcionarios())[i])
                && arquivo == Some(EncodeAll(RemoveAt(old(Funcionarios()), i)))
                && Funcionarios() == RemoveAt(old(Funcionarios()), i)
      ensures r.Ok? && DistinctCpfs(old(Funcionarios())) ==> DistinctCpfs(Funcionarios())
    {
      var valido := VerificarCpf(cpf);
      if !valido {
        return BadRequest("CPF inválido.");
      }
      var funcionarios, _ := ObterFuncionarios();
      var achado := FindFirst(funcionarios, cpf);
      if achado.None? {
        return NotFound;
      }
      var funcionario := funcionarios[achado.value];
      ghost var antes := funcionarios;
      funcionarios := RemoveAt(funcionarios, achado.value);
      StorableOnlyKeeps(funcionarios);
      if DistinctCpfs(antes) {
        RemoveKeepsDistinct(antes, achado.value);
      }
      SalvarFuncionarios(funcionarios);
      r := Ok(funcionario);
    }
  }
}
