/**
 * Sequences of requests against one controller, proved from the handlers'
 * contracts alone.
 */
module Scenarios {
  import opened Records
  import opened Cpf
  import opened LineCodec
  import opened Controller

  /** POST a record under a fresh valid CPF, then GET it: the same record comes back. */
  method CreateThenGet(c: FuncionarioController, dto: FuncionarioDto)
    returns (created: Response<Funcionario>, fetched: Response<Funcionario>)
    requires dto.cpf.Some? && CpfValid(dto.cpf.value)
    requires !AnyWithCpf(c.Funcionarios(), dto.cpf.value)
    requires Storable(NovoFuncionario(dto))
    modifies c
    ensures created == Created(NovoFuncionario(dto))
    ensures fetched == Ok(NovoFuncionario(dto))
  {
    ghost var before := c.Funcionarios();
    created := c.Adicionar(Some(dto));
    FindAppended(before, NovoFuncionario(dto));
    fetched := c.ObterPorCpf(dto.cpf.value);
  }

  /** POST the same payload twice: the second request is a conflict and saves nothing. */
  method CreateTwice(c: FuncionarioController, dto: FuncionarioDto)
    returns (first: Response<Funcionario>, second: Response<Funcionario>)
    requires dto.cpf.Some? && CpfValid(dto.cpf.value)
    requires !AnyWithCpf(c.Funcionarios(), dto.cpf.value)
    requires Storable(NovoFuncionario(dto))
    modifies c
    ensures first == Created(NovoFuncionario(dto))
    ensures second == Conflict("ja existe um funcionario com esse cpf, digite outro.")
  {
    ghost var before := c.Funcionarios();
    first := c.Adicionar(Some(dto));
    assert c.Funcionarios()[|before|] == NovoFuncionario(dto);
    ghost var saved := c.arquivo;
    second := c.Adicionar(Some(dto));
    assert c.arquivo == saved;
  }

  /** DELETE a CPF of a roster with distinct CPFs, then GET it: not found. */
  method DeleteThenGet(c: FuncionarioController, cpf: string)
    returns (removed: Response<Funcionario>, fetched: Response<Funcionario>)
    requires CpfValid(cpf)
    requires AnyWithCpf(c.Funcionarios(), cpf)
    requires DistinctCpfs(c.Funcionarios())
    modifies c
    ensures removed.Ok? && removed.body.cpf == cpf
    ensures fetched == NotFound
  {
    ghost var before := c.Funcionarios();
    removed := c.Remover(cpf);
    FindAfterRemove(before, cpf);
    fetched := c.ObterPorCpf(cpf);
  }

  /**
   * The formatted and the bare form of one CPF are different keys: with the
   * bare form stored, adding the formatted form ddd.ddd.ddd-dd is not a
   * conflict, although both forms get the same verdict.
   */
  method FormattedCpfIsAnotherKey(c: FuncionarioController, digits: string, stored: Funcionario, dto: FuncionarioDto)
    returns (r: Response<Funcionario>)
    requires |digits| == 11 && (forall i :: 0 <= i < 11 ==> IsDigit(digits[i])) && CpfValid(digits)
    requires c.Funcionarios() == [stored] && stored.cpf == digits
    requires dto.cpf == Some(Masked(digits, '.', '-'))
    modifies c
    ensures r == Created(NovoFuncionario(dto))
  {
    MaskedVerdict(digits, '.', '-');
    assert !AnyWithCpf(c.Funcionarios(), dto.cpf.value) by {
      assert |c.Funcionarios()[0].cpf| != |dto.cpf.value|;
    }
    r := c.Adicionar(Some(dto));
  }

  /**
   * A valid CPF written with '|' between its groups (ddd|ddd|ddd|dd) passes
   * validation, so the record is created; but its line has more than
   * thirteen fields, so the next load skips it and a lookup finds nothing.
   * No loaded record can already hold this CPF: loaded fields never hold '|'.
   */
  method SeparatorCpfIsLost(c: FuncionarioController, digits: string, dto: FuncionarioDto)
    returns (created: Response<Funcionario>, fetched: Response<Funcionario>)
    requires |digits| == 11 && (forall i :: 0 <= i < 11 ==> IsDigit(digits[i])) && CpfValid(digits)
    requires dto.cpf == Some(Masked(digits, Separator, Separator))
    modifies c
    ensures created == Created(NovoFuncionario(dto))
    ensures fetched == NotFound
  {
    var cpf := dto.cpf.value;
    MaskedVerdict(digits, Separator, Separator);
    assert cpf[3] == Separator;
    if c.arquivo.Some? {
      LoadedAreStorable(c.arquivo.value);
    }
    assert !AnyWithCpf(c.Funcionarios(), cpf) by {
      forall j | 0 <= j < |c.Funcionarios()| ensures c.Funcionarios()[j].cpf != cpf {
        assert Fields(c.Funcionarios()[j])[1] == c.Funcionarios()[j].cpf;
      }
    }
    ghost var before := c.Funcionarios();
    created := c.Adicionar(Some(dto));
    assert !Storable(NovoFuncionario(dto)) by {
      assert Fields(NovoFuncionario(dto))[1] == cpf;
      assert cpf[3] == Separator;
    }
    assert c.Funcionarios() == before;
    fetched := c.ObterPorCpf(cpf);
  }

  /**
   * POST a payload with '|' in some field twice: its line is skipped by the
   * next load, so the duplicate check never sees it and both requests are
   * Created, while the loaded roster stays as it was.
   */
  method UnstorableCreatedTwice(c: FuncionarioController, dto: FuncionarioDto)
    returns (first: Response<Funcionario>, second: Response<Funcionario>)
    requires dto.cpf.Some? && CpfValid(dto.cpf.value)
    requires !AnyWithCpf(c.Funcionarios(), dto.cpf.value)
    requires !Storable(NovoFuncionario(dto))
    modifies c
    ensures first == Created(NovoFuncionario(dto))
    ensures second == Created(NovoFuncionario(dto))
    ensures c.Funcionarios() == old(c.Funcionarios())
  {
    first := c.Adicionar(Some(dto));
    second := c.Adicionar(Some(dto));
  }

  /**
   * PUT a payload that sets only the room, every other field null, on a
   * one-record roster: only the room changes, the phone and the rest keep
   * their stored values.
   */
  method PartialUpdate(c: FuncionarioController, cpf: string, sala: string, dto: FuncionarioDto)
    returns (r: Response<Funcionario>)
    requires CpfValid(cpf) && Separator !in sala
    requires |c.Funcionarios()| == 1 && c.Funcionarios()[0].cpf == cpf
    requires dto.sala == Some(sala)
    requires forall k :: 0 <= k < FieldCount && k != 6 ==> PayloadFields(dto)[k].None?
    modifies c
    ensures r.Ok? && r.body.telefone == old(c.Funcionarios())[0].telefone && r.body.sala == sala
    ensures c.Funcionarios() == [old(c.Funcionarios())[0].(sala := sala)]
  {
    ghost var f := c.Funcionarios()[0];
    LoadedAreStorable(c.arquivo.value);
    assert Merge(f, dto) == f.(sala := sala) by {
      FieldsInjective(Merge(f, dto), f.(sala := sala));
    }
    assert StorablePayloadExceptCpf(dto) by {
      assert PayloadFields(dto)[6] == Some(sala);
    }
    r := c.Atualizar(cpf, dto);
  }
}
