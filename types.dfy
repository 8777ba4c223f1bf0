/** Values shared by the registration model: scopes, bean definitions, property values and the
    outcomes of calls into Koin's collaborators. */
module KoinTypes {

  datatype Option<+T> = None | Some(value: T)

  /** The key a context names its scope by (`Context.scope` and `Context.parentScope`). */
  datatype ScopeKey = ScopeKey(name: string)

  /** The scope object that `InstanceResolver.findOrCreateScope` hands back; only its identity matters. */
  datatype ScopeRef = ScopeRef(id: nat)

  datatype Lifecycle = Singleton | Factory

  /** A bean definition as it is passed to `BeanRegistry.declare`; its construction closure is not modelled. */
  datatype BeanDefinition = BeanDefinition(name: string, clazz: string, lifecycle: Lifecycle)

  /** A property value (`Any` in the source), known only by its identity. */
  datatype Value = Value(id: nat)

  /** An exception thrown by a collaborator; it propagates out of `build` unchanged. */
  datatype KoinError = KoinError(message: string)

  /** The reply of a call that returns a value or throws. */
  datatype Result<+T> = Ok(value: T) | Err(error: KoinError)

  /** The reply of a call that returns nothing or throws. */
  datatype Outcome = Pass | Fail(error: KoinError)
}
