/**
 Facts tying the two account screens together: they share one e-mail rule and one
 message for a malformed address, and the role registration writes is the role the
 login gate admits.
 */
module Screens {
  import Register
  import Login
  import Wrappers

  /** Once the registration form is filled in and the name is long enough, it refuses
      the e-mail exactly when the login form, given the same e-mail and password,
      refuses it: both screens accept the same addresses, with the same message. */
  lemma SameEmailRuleOnBothScreens(form: Register.RegisterForm)
    requires Register.FieldsFilled(form) && Register.NameLongEnough(form.name)
    ensures Register.ValidateRegistration(form) == Wrappers.Failure(Register.EmailMalformed)
        <==> Login.ValidateLogin(form.email, form.password) == Wrappers.Some(Login.EmailMalformed)
    ensures Register.Message(Register.FormRejected(Register.EmailMalformed))
         == Login.Message(Login.FormRejected(Login.EmailMalformed))
  {
  }

  /** The role the registration screen writes into the sign-up request of any form it
      accepts is one the login gate admits, once the service hands that metadata back. */
  lemma RegisteredRoleIsAdmitted(form: Register.RegisterForm)
    ensures Register.ValidateRegistration(form).Success? ==>
      Login.EnsureClientRole(false,
        Wrappers.Some(Login.SessionUser(Wrappers.Some(Register.ValidateRegistration(form).value.role))))
      == Login.ClientConfirmed
  {
  }
}
