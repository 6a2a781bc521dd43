/**
 * The fixed part of the seed data: the seven canonical age labels talents are
 * generated with, and the three seeded casting projects with their roles.
 * The randomly generated talent pool is not part of this model.
 */
module MockData {
  import opened Model

  /** The canonical age labels; every generated talent carries one of them. */
  const AgeLabels: seq<string> := ["Niño (5-10)", "Adolescente (12-18)", "20-30", "30-40", "40-50", "50-60", "60+"]

  const RoleProtagonist := CastingRole("r1", "Protagonista", "Chico joven en la playa", "Masculino", "20-30", "Fresco, alegre", None, None)
  const RoleNarrator := CastingRole("r2", "Narrador", "Voz de marca final", "Masculino", "30-40", "Profundo, seductor", None, None)
  const RoleDocumentaryNarrator := CastingRole("r3", "Narrador Principal", "Estilo clásico documental", "Cualquiera", "40-50", "Sereno, educativo", None, None)
  const RoleInstitutional := CastingRole("r4", "Voz Institucional", "Voz que inspire confianza y futuro", "Femenino", "30-40", "Cálida, Tecnológica", None, None)

  const MockProjects: seq<CastingProject> := [
    CastingProject("p1", "Campaña Verano 2025", "c1", "Agencia Creativa 360", None, Open, "2024-10-15",
      "Anuncio de cerveza para TV y Redes.", [RoleProtagonist, RoleNarrator]),
    CastingProject("p2", "Documental Naturaleza", "c2", "NatGeo Local", None, Completed, "2024-09-01",
      "Documental sobre la fauna ibérica.", [RoleDocumentaryNarrator]),
    CastingProject("p3", "Spot Corporativo Tech", "c3", "Innovate SA", None, Open, "2024-11-20",
      "Video interno para convención de ventas.", [RoleInstitutional])
  ]
}
