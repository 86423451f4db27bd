/** Order statuses, their default tracking descriptions, and the two
    authorization predicates the routes use. */
module Status {
  import opened StoreTypes

  const PENDIENTE: string := "pendiente"
  const CONFIRMADO: string := "confirmado"
  const PROCESANDO: string := "procesando"
  const ENVIADO: string := "enviado"
  const ENTREGADO: string := "entregado"
  const CANCELADO: string := "cancelado"

  const ADMIN_ROLE: string := "administrador"

  const PENDING_DESCRIPTION: string := "Pedido recibido y en espera de confirmación"
  const DEFAULT_DESCRIPTION: string := "Estado actualizado"

  /** The statuses that have an entry of their own in the description table. */
  predicate HasOwnDescription(status: string) {
    status in {PENDIENTE, CONFIRMADO, ENVIADO, ENTREGADO, CANCELADO}
  }

  /** getStatusDescription: the table entry for `status`, or the generic text. */
  function StatusDescription(status: string): (d: string)
    ensures |d| > 0
    ensures d == DEFAULT_DESCRIPTION <==> !HasOwnDescription(status)
    ensures status == PENDIENTE ==> d == PENDING_DESCRIPTION
  {
    if status == PENDIENTE then PENDING_DESCRIPTION
    else if status == CONFIRMADO then "Pedido confirmado y en proceso de preparación"
    else if status == ENVIADO then "Pedido enviado a la dirección de entrega"
    else if status == ENTREGADO then "Pedido entregado satisfactoriamente"
    else if status == CANCELADO then "Pedido cancelado"
    else DEFAULT_DESCRIPTION
  }

  /** `description || getStatusDescription(status)`: an absent or empty
      description falls back to the status's default text. */
  function EventDescription(description: Option<string>, status: string): (d: string)
    ensures |d| > 0
    ensures description.Some? && description.value != "" ==> d == description.value
    ensures description.None? || description.value == "" ==> d == StatusDescription(status)
  {
    if description.Some? && description.value != "" then description.value
    else StatusDescription(status)
  }

  /** `user.user_metadata?.role === 'administrador'`. */
  predicate IsAdmin(user: User) {
    user.role == ADMIN_ROLE
  }

  /** The owner-or-admin test applied before an order is shown. */
  predicate CanView(user: User, order: Order) {
    order.userId == user.id || IsAdmin(user)
  }
}
