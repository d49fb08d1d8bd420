/** The input guards that run before a doctor or a user record is written.
    Form fields arrive as text; an absent field reads as the empty string,
    which is the only falsy text value. Whether a text is an email address is
    decided by a collaborator, passed in as `isEmail`; the emails already
    stored are passed in as a set. */
module Validation {

  /** The reply of a guard: go on to the write, or stop with the reply's
      success key (as spelled in the reply) and message. */
  datatype Verdict = Accept | Reject(successKey: string, message: string)

  datatype DoctorForm = DoctorForm(
    name: string, email: string, password: string, speciality: string, degree: string,
    experience: string, about: string, fees: string, address: string)

  datatype UserForm = UserForm(name: string, email: string, password: string)

  predicate DoctorFormComplete(f: DoctorForm)
  {
    f.name != "" && f.email != "" && f.password != "" && f.speciality != "" && f.degree != ""
    && f.experience != "" && f.about != "" && f.fees != "" && f.address != ""
  }

  /** addDoctor's guards, in order: missing field, malformed email, password
      under 8 characters, email already taken. The first two replies spell
      the success key "sucess". */
  function AddDoctorCheck(f: DoctorForm, isEmail: string -> bool, emails: set<string>): (v: Verdict)
    ensures v.Accept? <==> DoctorFormComplete(f) && isEmail(f.email) && |f.password| >= 8 && f.email !in emails
    ensures v.Reject? && v.successKey == "sucess" <==> !DoctorFormComplete(f) || !isEmail(f.email)
    ensures v.Reject? ==> v.successKey in {"sucess", "success"}
    ensures !DoctorFormComplete(f) ==> v == Reject("sucess", "Missing Details ")
    ensures DoctorFormComplete(f) && !isEmail(f.email) ==> v == Reject("sucess", "Please enter a valid email ")
    ensures DoctorFormComplete(f) && isEmail(f.email) && |f.password| < 8
            ==> v == Reject("success", "Please enter a strong password")
    ensures DoctorFormComplete(f) && isEmail(f.email) && |f.password| >= 8 && f.email in emails
            ==> v == Reject("success", "Doctor already exists with this email")
  {
    if !DoctorFormComplete(f) then Reject("sucess", "Missing Details ")
    else if !isEmail(f.email) then Reject("sucess", "Please enter a valid email ")
    else if |f.password| < 8 then Reject("success", "Please enter a strong password")
    else if f.email in emails then Reject("success", "Doctor already exists with this email")
    else Accept
  }

  /** registerUser's guards, in the same order and with the key spelled
      "success" throughout. */
  function RegisterUserCheck(f: UserForm, isEmail: string -> bool, emails: set<string>): (v: Verdict)
    ensures v.Accept? <==> f.name != "" && f.email != "" && f.password != "" && isEmail(f.email)
                           && |f.password| >= 8 && f.email !in emails
    ensures v.Reject? ==> v.successKey == "success"
    ensures f.name == "" || f.email == "" || f.password == "" ==> v == Reject("success", "Missing Details")
    ensures f.name != "" && f.email != "" && f.password != "" && !isEmail(f.email)
            ==> v == Reject("success", "Enter a valid Email")
    ensures f.name != "" && f.email != "" && f.password != "" && isEmail(f.email) && |f.password| < 8
            ==> v == Reject("success", "Enter a strong password")
    ensures (f.name != "" && f.email != "" && f.password != "" && isEmail(f.email) && |f.password| >= 8
             && f.email in emails)
            ==> v == Reject("success", "User already exists with this email")
  {
    if f.name == "" || f.email == "" || f.password == "" then Reject("success", "Missing Details")
    else if !isEmail(f.email) then Reject("success", "Enter a valid Email")
    else if |f.password| < 8 then Reject("success", "Enter a strong password")
    else if f.email in emails then Reject("success", "User already exists with this email")
    else Accept
  }
}
