/**
 * The employee record of the roster service and the request payload that
 * creates or patches one. A C# `string` field that can be null in a payload
 * is an `Option<string>`; a stored record's fields are never null.
 */
module Records {

  datatype Option<T> = None | Some(value: T)

  /** `a ?? b` on nullable values. */
  function OrElse<T>(o: Option<T>, otherwise: T): T
  {
    match o
    case Some(v) => v
    case None => otherwise
  }

  /** Endereco: the address owned by one employee. */
  datatype Endereco = Endereco(
    uf: string,
    cidade: string,
    bairro: string,
    numero: string,
    cep: string)

  /** Funcionario: one employee; `cpf` is the lookup key, compared as a raw string. */
  datatype Funcionario = Funcionario(
    nome: string,
    cpf: string,
    ctps: string,
    rg: string,
    funcao: string,
    setor: string,
    sala: string,
    telefone: string,
    endereco: Endereco)

  /** The address part of a request payload; every field may be absent (null). */
  datatype EnderecoDto = EnderecoDto(
    uf: Option<string>,
    cidade: Option<string>,
    bairro: Option<string>,
    numero: Option<string>,
    cep: Option<string>)

  /**
   * A request payload (funcionarioDTO). Its address is always present: a
   * null address makes both handlers that read it fail before saving.
   */
  datatype FuncionarioDto = FuncionarioDto(
    nome: Option<string>,
    cpf: Option<string>,
    ctps: Option<string>,
    rg: Option<string>,
    funcao: Option<string>,
    setor: Option<string>,
    sala: Option<string>,
    telefone: Option<string>,
    endereco: EnderecoDto)
}
