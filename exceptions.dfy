/** The `ClientErrorException`s the order service throws. The exception
    carries only its message; each kind of failure below stands for the one
    throw site that produces it, and `Message` gives that site's text. */
module Exceptions {
  import opened JavaLang

  datatype ClientError =
    | ClientIdRequired
    | ClientNotRegistered(clientId: Long)
    | StatusRequired
    | StatusInvalid(status: string)
    | OrderIdRequired
    | OrderIdNotRegistered
  {
    function Message(): (m: string)
      ensures ClientNotRegistered? ==> EndsWith(m, LongToString(clientId))
      ensures StatusInvalid? ==> EndsWith(m, status)
      ensures m != []
    {
      match this
      case ClientIdRequired => "O id do cliente é obrigatório."
      case ClientNotRegistered(id) => UnknownClientPrefix() + LongToString(id)
      case StatusRequired => "O status é obrigatório."
      case StatusInvalid(s) => "O status informado é inválido: " + s
      case OrderIdRequired => "O id do pedido é obrigatório."
      case OrderIdNotRegistered => "O id do pedido não está cadastrado."
    }
  }

  /** The fixed start of the unknown-client message. */
  function UnknownClientPrefix(): (p: string)
    ensures |p| == 50 && p[0] == 'N'
  {
    "Não existe cliente " + "cadastrado com o id informado: "
  }

  /** `text` is the last part of `s`. */
  predicate EndsWith(s: string, text: string) {
    |text| <= |s| && s[|s| - |text|..] == text
  }

  /** The message alone tells a caller which check failed and, for an unknown
      client or an invalid status, the exact value that was rejected. */
  lemma MessageIdentifiesError(e1: ClientError, e2: ClientError)
    requires e1.Message() == e2.Message()
    ensures e1 == e2
  {
    MessageIdentifiesKind(e1, e2);
    var m := e1.Message();
    if e1.ClientNotRegistered? {
      var p := UnknownClientPrefix();
      assert LongToString(e1.clientId) == m[|p|..];
      assert LongToString(e2.clientId) == m[|p|..];
      LongToStringInjective(e1.clientId, e2.clientId);
    } else if e1.StatusInvalid? {
      var p := "O status informado é inválido: ";
      assert e1.status == m[|p|..];
      assert e2.status == m[|p|..];
    }
  }

  /** Messages of different kinds of failure differ. */
  lemma MessageIdentifiesKind(e1: ClientError, e2: ClientError)
    requires e1.Message() == e2.Message()
    ensures e1.ClientIdRequired? == e2.ClientIdRequired? && e1.ClientNotRegistered? == e2.ClientNotRegistered?
    ensures e1.StatusRequired? == e2.StatusRequired? && e1.StatusInvalid? == e2.StatusInvalid?
    ensures e1.OrderIdRequired? == e2.OrderIdRequired? && e1.OrderIdNotRegistered? == e2.OrderIdNotRegistered?
  {
    MessageKind(e1);
    MessageKind(e2);
  }

  /** Which check a message comes from, read off a few of its characters. */
  function KindOf(m: string): nat
    requires |m| > 15
  {
    if m[0] == 'N' then 1
    else if m[2] == 's' then (if m[9] == 'é' then 2 else 3)
    else if m[8] == 'c' then 0
    else if m[15] == 'é' then 4
    else 5
  }

  lemma MessageKind(e: ClientError)
    ensures |e.Message()| > 15
    ensures KindOf(e.Message()) == match e
      case ClientIdRequired => 0
      case ClientNotRegistered(_) => 1
      case StatusRequired => 2
      case StatusInvalid(_) => 3
      case OrderIdRequired => 4
      case OrderIdNotRegistered => 5
  {
    var m := e.Message();
    match e
    case ClientIdRequired =>
      assert m == "O id do cliente é obrigatório.";
      assert m[0] == 'O' && m[2] == 'i' && m[8] == 'c';
    case ClientNotRegistered(id) =>
      assert m[0] == UnknownClientPrefix()[0];
    case StatusRequired =>
      assert m == "O status é obrigatório.";
      assert m[0] == 'O' && m[2] == 's' && m[9] == 'é';
    case StatusInvalid(t) =>
      var p := "O status informado é inválido: ";
      assert m[..16] == p[..16];
    case OrderIdRequired =>
      assert m == "O id do pedido é obrigatório.";
      assert m[0] == 'O' && m[2] == 'i' && m[8] == 'p' && m[15] == 'é';
    case OrderIdNotRegistered =>
      assert m == "O id do pedido não está cadastrado.";
      assert m[0] == 'O' && m[2] == 'i' && m[8] == 'p' && m[15] == 'n';
  }
}
